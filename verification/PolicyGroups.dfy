/**
 What the groups of a policy document become: which lists of entries and groups are accepted, what they turn into,
 and what a reference to a group resolves to.
 */
module PolicyGroups {
  import opened Wrappers
  import opened PolicyText
  import opened PolicyEngine
  import opened PolicyService
  import opened PolicyMeaning

  // ---------------------------------------------------------------- accepted lists

  /** All are accepted, none has an id from outside, and no two have the same. */
  ghost predicate AllOwn(given: seq<Option<Json>>, ids: set<Json>) {
    && (forall i | 0 <= i < |given| :: given[i].Some? && IdOf(given[i].value) !in ids)
    && (forall i, j | 0 <= i < j < |given| && given[i].Some? && given[j].Some? ::
          IdOf(given[i].value) != IdOf(given[j].value))
  }

  ghost predicate Collected(given: seq<Option<Json>>, r: seq<Json>) {
    |r| == |given| && forall i | 0 <= i < |given| :: given[i] == Some(r[i])
  }

  function EachEntry(k: Kind, items: seq<Json>): seq<Option<Json>> {
    seq(|items|, i requires 0 <= i < |items| => Entry(k, items[i]))
  }

  function EachGroup(k: Kind, items: seq<Json>): seq<Option<Json>> {
    seq(|items|, i requires 0 <= i < |items| => Group(k, items[i]))
  }

  lemma OwnCons(given: seq<Option<Json>>, ids: set<Json>)
    requires given != []
    ensures AllOwn(given, ids) <==>
      given[0].Some? && IdOf(given[0].value) !in ids && AllOwn(given[1..], ids + {IdOf(given[0].value)})
  {
    assert forall i | 0 <= i < |given| - 1 :: given[1..][i] == given[i + 1];
    if given[0].Some? && IdOf(given[0].value) !in ids && AllOwn(given[1..], ids + {IdOf(given[0].value)}) {
      forall i | 0 <= i < |given| ensures given[i].Some? && IdOf(given[i].value) !in ids {
        assert i > 0 ==> given[i] == given[1..][i - 1];
      }
      forall i, j | 0 <= i < j < |given| && given[i].Some? && given[j].Some?
        ensures IdOf(given[i].value) != IdOf(given[j].value)
      {
        assert given[j] == given[1..][j - 1];
        assert i > 0 ==> given[i] == given[1..][i - 1];
      }
    }
  }

  lemma CollectedCons(given: seq<Option<Json>>, one: Json, rest: seq<Json>)
    requires given != [] && given[0] == Some(one) && Collected(given[1..], rest)
    ensures Collected(given, [one] + rest)
  {
    forall i | 0 <= i < |given| ensures given[i] == Some(([one] + rest)[i]) {
      assert i > 0 ==> given[i] == given[1..][i - 1];
    }
  }

  lemma {:induction false} EntriesCollect(k: Kind, items: seq<Json>, ids: set<Json>)
    ensures Entries(k, items, ids).Some? <==> AllOwn(EachEntry(k, items), ids)
    ensures Entries(k, items, ids).Some? ==> Collected(EachEntry(k, items), Entries(k, items, ids).value)
    decreases |items|
  {
    if items != [] {
      var given := EachEntry(k, items);
      assert given[1..] == EachEntry(k, items[1..]);
      OwnCons(given, ids);
      if given[0].Some? {
        EntriesCollect(k, items[1..], ids + {IdOf(given[0].value)});
        if Entries(k, items, ids).Some? {
          CollectedCons(given, given[0].value, Entries(k, items[1..], ids + {IdOf(given[0].value)}).value);
        }
      }
    }
  }

  lemma {:induction false} GroupsCollect(k: Kind, items: seq<Json>, ids: set<Json>)
    ensures GroupList(k, items, ids).Some? <==> AllOwn(EachGroup(k, items), ids)
    ensures GroupList(k, items, ids).Some? ==> Collected(EachGroup(k, items), GroupList(k, items, ids).value)
    decreases |items|
  {
    if items != [] {
      var given := EachGroup(k, items);
      assert given[1..] == EachGroup(k, items[1..]);
      OwnCons(given, ids);
      if given[0].Some? {
        GroupsCollect(k, items[1..], ids + {IdOf(given[0].value)});
        if GroupList(k, items, ids).Some? {
          CollectedCons(given, given[0].value, GroupList(k, items[1..], ids + {IdOf(given[0].value)}).value);
        }
      }
    }
  }

  function EachRule(rules: seq<Json>, objects: Object, index: nat): seq<Option<Json>> {
    seq(|rules|, i requires 0 <= i < |rules| => Rule(rules[i], objects, index + i, {}))
  }

  lemma RuleSeen(j: Json, objects: Object, index: nat, seen: set<Json>)
    ensures var alone := Rule(j, objects, index, {});
      Rule(j, objects, index, seen) == if alone.Some? && IdOf(alone.value) !in seen then alone else None
  {
    if Rule(j, objects, index, {}).Some? {
      RuleShape(j, objects, index, {});
      var r := j.fields;
      PlainRuleFacts(r, GetOr(r, "id", Int(index + 1)), GetOr(r, "enabled", Bool(true)), NamedAction(r).value,
                     Condition(Get(r, "if"), objects, 0).value);
    }
  }

  lemma {:induction false} RulesCollect(rules: seq<Json>, objects: Object, index: nat, seen: set<Json>)
    ensures Rules(rules, objects, index, seen).Some? <==> AllOwn(EachRule(rules, objects, index), seen)
    ensures Rules(rules, objects, index, seen).Some? ==>
      Collected(EachRule(rules, objects, index), Rules(rules, objects, index, seen).value)
    decreases |rules|
  {
    if rules != [] {
      var given := EachRule(rules, objects, index);
      assert given[1..] == EachRule(rules[1..], objects, index + 1);
      OwnCons(given, seen);
      RuleSeen(rules[0], objects, index, seen);
      if given[0].Some? {
        RulesCollect(rules[1..], objects, index + 1, seen + {IdOf(given[0].value)});
        if Rules(rules, objects, index, seen).Some? {
          CollectedCons(given, given[0].value,
                        Rules(rules[1..], objects, index + 1, seen + {IdOf(given[0].value)}).value);
        }
      }
    }
  }

  /** A list of rules is accepted exactly if each rule is by itself, at its place, and no two have the same id. */
  lemma RulesAcceptedIff(rules: seq<Json>, objects: Object)
    ensures Rules(rules, objects, 0, {}).Some? <==> AllOwn(EachRule(rules, objects, 0), {})
    ensures Rules(rules, objects, 0, {}).Some? ==>
      Collected(EachRule(rules, objects, 0), Rules(rules, objects, 0, {}).value)
  {
    RulesCollect(rules, objects, 0, {});
  }

  /** A list of groups is accepted exactly if every group is and no two have the same id, and it becomes the list of
      its normalised groups in the same order; and so for the entries of a group. */
  lemma ListsAcceptedIff(k: Kind, items: seq<Json>)
    ensures GroupList(k, items, {}).Some? <==> AllOwn(EachGroup(k, items), {})
    ensures GroupList(k, items, {}).Some? ==> Collected(EachGroup(k, items), GroupList(k, items, {}).value)
    ensures Entries(k, items, {}).Some? <==> AllOwn(EachEntry(k, items), {})
    ensures Entries(k, items, {}).Some? ==> Collected(EachEntry(k, items), Entries(k, items, {}).value)
  {
    GroupsCollect(k, items, {});
    EntriesCollect(k, items, {});
  }

  /** Each kind of groups comes from the list of its own name. */
  lemma GroupsComeFrom(j: Json)
    requires Groups(j).Some?
    ensures var (r, given) := (Groups(j).value, j.fields);
      && GroupsByKind(r) && given.Keys <= {"channel_hashes", "pubkeys"} == r.Keys
      && FromList(ChannelHashes, GetOr(given, "channel_hashes", List([])), r["channel_hashes"].items)
      && FromList(PublicKeys, GetOr(given, "pubkeys", List([])), r["pubkeys"].items)
  {
    var (channels, keys) := (GetOr(j.fields, "channel_hashes", List([])), GetOr(j.fields, "pubkeys", List([])));
    GroupsCollect(ChannelHashes, channels.items, {});
    GroupsCollect(PublicKeys, keys.items, {});
  }

  ghost predicate FromList(k: Kind, given: Json, groups: seq<Json>) {
    given.List? && Collected(EachGroup(k, given.items), groups)
  }

  predicate GroupsByKind(groups: Object) {
    "channel_hashes" in groups && groups["channel_hashes"].List? && "pubkeys" in groups && groups["pubkeys"].List?
  }

  /** The text of a field, or else the default. */
  function TextOr(j: Json, default: string): Json {
    if j.Str? then j else Str(default)
  }

  /** The name a group or entry was given. */
  function GivenName(o: Object): Json {
    if "friendly_name" in o then o["friendly_name"] else Get(o, "name")
  }

  /** The text an id is made of: the given id, or else the name. */
  function IdSource(o: Object, otherwise: Json): Json {
    var id := Get(o, "id");
    if id.Null? || id == Str("") then otherwise else id
  }

  predicate MakesId(j: Json) {
    j.Str? && Identifier(j.s).Some?
  }

  predicate TextOrNull(j: Json) {
    j.Null? || j.Str?
  }

  lemma IdIff(o: Object, otherwise: Json)
    ensures IdentifierOf(Get(o, "id"), otherwise).Some? <==> MakesId(IdSource(o, otherwise))
  {
  }

  lemma TextIff(j: Json, default: string)
    ensures Text(j, default).Some? <==> TextOrNull(j)
  {
  }

  /** The checks of a group as it makes them. */
  lemma GroupParts(k: Kind, j: Json)
    requires j.Obj?
    ensures var g := j.fields;
      var id := IdentifierOf(Get(g, "id"), Or(Get(g, "friendly_name"), Get(g, "name")));
      var listed := GetOr(g, "entries", List([]));
      Group(k, j).Some? <==>
        && g.Keys <= {"id", "name", "friendly_name", "description", "entries"}
        && id.Some? && listed.List? && Entries(k, listed.items, {}).Some?
        && Text(GivenName(g), id.value).Some? && Text(Get(g, "description"), "").Some?
  {
  }

  /** A group is accepted exactly if it has known parts, an id can be made of its id or its name, its texts are texts
      and its entries are accepted. */
  lemma GroupAcceptedIff(k: Kind, j: Json)
    ensures Group(k, j).Some? <==>
      && j.Obj? && j.fields.Keys <= {"id", "name", "friendly_name", "description", "entries"}
      && var g := j.fields;
         && MakesId(IdSource(g, if Truthy(Get(g, "friendly_name")) then g["friendly_name"] else Get(g, "name")))
         && TextOrNull(GivenName(g)) && TextOrNull(Get(g, "description"))
         && GetOr(g, "entries", List([])).List? && AllOwn(EachEntry(k, GetOr(g, "entries", List([])).items), {})
  {
    if j.Obj? {
      var g := j.fields;
      GroupParts(k, j);
      IdIff(g, Or(Get(g, "friendly_name"), Get(g, "name")));
      TextIff(Get(g, "description"), "");
      if GetOr(g, "entries", List([])).List? {
        EntriesCollect(k, GetOr(g, "entries", List([])).items, {});
      }
    }
  }

  /** So is an entry, which needs a value that suits its kind; that names it, too, if nothing else does. */
  lemma EntryAcceptedIff(k: Kind, j: Json)
    ensures Entry(k, j).Some? <==>
      && j.Obj? && j.fields.Keys <= {"id", "name", "friendly_name", "value"}
      && var e := j.fields;
         var value := EntryValue(k, Get(e, "value"));
         && value.Some? && TextOrNull(GivenName(e))
         && MakesId(IdSource(e, if Truthy(Get(e, "friendly_name")) then e["friendly_name"]
                                else if Truthy(Get(e, "name")) then e["name"] else Str(value.value)))
  {
  }

  /** An accepted group keeps its texts and its entries; its id is the identifier made of the given id, or of its
      name. */
  lemma GroupKeeps(k: Kind, j: Json)
    requires Group(k, j).Some?
    ensures j.Obj? && Group(k, j).value.Obj?
    ensures var (given, g) := (j.fields, Group(k, j).value.fields);
      var (id, name) := (Get(given, "id"), GivenName(given));
      && g.Keys == {"id", "friendly_name", "description", "entries"}
      && g["id"].Str? && (id.Str? && id.s != "" ==> Identifier(id.s) == Some(g["id"].s))
      && ((id.Null? || id == Str("")) && name.Str? && name.s != "" ==> Identifier(name.s) == Some(g["id"].s))
      && g["friendly_name"] == TextOr(name, g["id"].s) && g["description"] == TextOr(Get(given, "description"), "")
      && GetOr(given, "entries", List([])).List? && g["entries"].List?
      && Collected(EachEntry(k, GetOr(given, "entries", List([])).items), g["entries"].items)
  {
    EntriesCollect(k, GetOr(j.fields, "entries", List([])).items, {});
  }

  /** So does an accepted entry, and its value is the normalised one. */
  lemma EntryKeeps(k: Kind, j: Json)
    requires Entry(k, j).Some?
    ensures j.Obj? && Entry(k, j).value.Obj?
    ensures var (given, e) := (j.fields, Entry(k, j).value.fields);
      var (id, name) := (Get(given, "id"), GivenName(given));
      && e.Keys == {"id", "friendly_name", "value"}
      && e["id"].Str? && (id.Str? && id.s != "" ==> Identifier(id.s) == Some(e["id"].s))
      && e["friendly_name"] == TextOr(name, e["id"].s)
      && e["value"].Str? && EntryValue(k, Get(given, "value")) == Some(e["value"].s)
  {
  }

  /** A channel is the same by its number, by the number's digits, and by its two capital hexadecimal digits. */
  lemma ChannelSpellings(n: int)
    requires 0 <= n < 256
    ensures EntryValue(ChannelHashes, Int(n)) == Some(ByteText(n))
    ensures EntryValue(ChannelHashes, Str(Natural(n))) == Some(ByteText(n))
    ensures EntryValue(ChannelHashes, Str(ByteText(n))) == Some(ByteText(n))
  {
    ByteTextHash(n);
    NaturalReads(n);
  }

  lemma NaturalReads(n: nat)
    requires n < 256
    ensures Secret(Natural(n)) == None && HashOfText(Natural(n)) == Some(ByteText(n))
  {
    var s := DigitsOf(n);
    ReadsAs(s, n);
  }

  /** A text of up to three digits that int() reads as n. */
  predicate Spelled(s: string, n: nat) {
    && 1 <= |s| <= 3 && Strip(s) == s && AllDigits(s) && !HasPrefix(s) && Digits(s, 10, 0, false) == Some(n)
  }

  lemma ReadsAs(s: string, n: nat)
    requires n < 256 && Spelled(s, n)
    ensures Secret(s) == None && HashOfText(s) == Some(ByteText(n))
  {
  }

  lemma DigitsOf(n: nat) returns (s: string)
    requires n < 1000
    ensures s == Natural(n) && Spelled(s, n)
  {
    NaturalDigits(n);
    var (a, b, c) := DecimalPlaces(n);
    if n < 10 {
      s := OneDigit(n);
    } else if n < 100 {
      s := TwoTens(b, c);
    } else {
      s := ThreeTens(a, b, c);
    }
  }

  function DecimalPlaces(n: nat): (r: (int, int, int))
    requires n < 1000
    ensures n == 100 * r.0 + 10 * r.1 + r.2 && 0 <= r.0 < 10 && 0 <= r.1 < 10 && 0 <= r.2 < 10
    ensures r == (n / 100, n / 10 % 10, n % 10) && (n < 100 ==> r.0 == 0 && r.1 == n / 10)
  {
    (n / 100, n / 10 % 10, n % 10)
  }

  lemma NaturalDigits(n: nat)
    requires n < 1000
    ensures Natural(n) ==
      if n < 10 then [Ten(n)]
      else if n < 100 then [Ten(n / 10), Ten(n % 10)]
      else [Ten(n / 100), Ten(n / 10 % 10), Ten(n % 10)]
  {
    NaturalStep(n);
    NaturalStep(n / 10);
    NaturalStep(n / 10 / 10);
    assert n / 10 / 10 == n / 100;
  }

  lemma NaturalStep(n: nat)
    ensures if n < 10 then Natural(n) == [Ten(n)] else Natural(n) == Natural(n / 10) + [Ten(n % 10)]
  {
  }

  function Ten(d: int): (c: char)
    requires 0 <= d < 10
    ensures '0' <= c <= '9' && HexValue(c) == d
  {
    '0' + d as char
  }

  lemma OneDigit(a: int) returns (s: string)
    requires 0 <= a < 10
    ensures s == [Ten(a)] && Spelled(s, a)
  {
    s := [Ten(a)];
    assert s[1..] == "";
  }

  lemma TwoTens(a: int, b: int) returns (s: string)
    requires 0 <= a < 10 && 0 <= b < 10
    ensures s == [Ten(a), Ten(b)] && Spelled(s, 10 * a + b)
  {
    s := [Ten(a), Ten(b)];
    assert s[1..] == [Ten(b)] && [Ten(b)][1..] == "" && AllDigits([Ten(b)]);
    assert Digits([Ten(b)], 10, a, true) == Some(10 * a + b);
  }

  lemma ThreeTens(a: int, b: int, c: int) returns (s: string)
    requires 0 <= a < 10 && 0 <= b < 10 && 0 <= c < 10
    ensures s == [Ten(a), Ten(b), Ten(c)] && Spelled(s, 100 * a + 10 * b + c)
  {
    s := [Ten(a), Ten(b), Ten(c)];
    assert s[1..] == [Ten(b), Ten(c)] && [Ten(b), Ten(c)][1..] == [Ten(c)];
    assert [Ten(c)][1..] == "" && AllDigits([Ten(c)]) && AllDigits([Ten(b), Ten(c)]);
    assert Digits([Ten(c)], 10, 10 * a + b, true) == Some(100 * a + 10 * b + c);
    assert Digits([Ten(b), Ten(c)], 10, a, true) == Some(100 * a + 10 * b + c);
  }

  // ---------------------------------------------------------------- the projection

  /** A normalised group: an id, and entries with a value each. */
  predicate IsGroup(g: Json) {
    && g.Obj? && "id" in g.fields && g.fields["id"].Str? && "entries" in g.fields && g.fields["entries"].List?
    && forall i | 0 <= i < |g.fields["entries"].items| :: IsEntry(g.fields["entries"].items[i])
  }

  predicate IsEntry(e: Json) {
    e.Obj? && "value" in e.fields && e.fields["value"].Str?
  }

  /** The values of a group's entries in their order. */
  function GroupValues(g: Json): Json
    requires IsGroup(g)
  {
    var entries := g.fields["entries"].items;
    List(seq(|entries|, i requires 0 <= i < |entries| => entries[i].fields["value"]))
  }

  /** Groups with ids of their own. */
  ghost predicate AreGroups(groups: seq<Json>) {
    && (forall i | 0 <= i < |groups| :: IsGroup(groups[i]))
    && (forall i, j | 0 <= i < j < |groups| :: groups[i].fields["id"] != groups[j].fields["id"])
  }

  lemma EntryIsEntry(k: Kind, j: Json)
    requires Entry(k, j).Some?
    ensures IsEntry(Entry(k, j).value)
  {
  }

  lemma GroupIsGroup(k: Kind, j: Json)
    requires Group(k, j).Some?
    ensures IsGroup(Group(k, j).value) && IdOf(Group(k, j).value) == Group(k, j).value.fields["id"]
  {
    var g := Group(k, j).value;
    var listed := GetOr(j.fields, "entries", List([]));
    EntriesCollect(k, listed.items, {});
    var given := EachEntry(k, listed.items);
    assert g.Obj? && g.fields["entries"] == List(Entries(k, listed.items, {}).value);
    forall i | 0 <= i < |g.fields["entries"].items| ensures IsEntry(g.fields["entries"].items[i]) {
      assert given[i] == Entry(k, listed.items[i]);
      EntryIsEntry(k, listed.items[i]);
    }
  }

  lemma ListedAreGroups(k: Kind, items: seq<Json>)
    requires GroupList(k, items, {}).Some?
    ensures AreGroups(GroupList(k, items, {}).value)
  {
    var gs, given := GroupList(k, items, {}).value, EachGroup(k, items);
    GroupsCollect(k, items, {});
    forall i | 0 <= i < |gs| ensures IsGroup(gs[i]) && given[i] == Some(gs[i]) && IdOf(gs[i]) == gs[i].fields["id"] {
      assert given[i] == Group(k, items[i]);
      GroupIsGroup(k, items[i]);
    }
  }

  lemma {:induction false} ValuesInOrder(entries: seq<Json>)
    requires forall i | 0 <= i < |entries| :: IsEntry(entries[i])
    ensures |ValuesOf(entries)| == |entries|
    ensures forall i | 0 <= i < |entries| :: IsEntry(entries[i]) && ValuesOf(entries)[i] == entries[i].fields["value"]
  {
    if entries != [] {
      assert IsEntry(entries[0]);
      assert forall i | 0 <= i < |entries| - 1 :: entries[1..][i] == entries[i + 1];
      ValuesInOrder(entries[1..]);
      forall i | 0 <= i < |entries| ensures ValuesOf(entries)[i] == entries[i].fields["value"] {
        assert i > 0 ==> entries[i] == entries[1..][i - 1];
      }
    }
  }

  lemma ValuesAre(g: Json)
    requires IsGroup(g)
    ensures List(EntryValues(Get(g.fields, "entries"))) == GroupValues(g)
  {
    ValuesInOrder(g.fields["entries"].items);
  }

  predicate Named(groups: seq<Json>, name: string) {
    exists i | 0 <= i < |groups| :: IsGroup(groups[i]) && groups[i].fields["id"] == Str(name)
  }

  /** Does the object hold exactly the values of every group under its id? */
  ghost predicate Holds(o: Object, groups: seq<Json>)
    requires AreGroups(groups)
  {
    && (forall i | 0 <= i < |groups| ::
          groups[i].fields["id"].s in o && o[groups[i].fields["id"].s] == GroupValues(groups[i]))
    && (forall name | name in o :: Named(groups, name))
  }

  lemma TailAreGroups(groups: seq<Json>)
    requires AreGroups(groups) && groups != []
    ensures AreGroups(groups[1..])
    ensures forall i | 0 <= i < |groups| - 1 :: groups[1..][i].fields["id"] != groups[0].fields["id"]
  {
    assert forall i | 0 <= i < |groups| - 1 :: groups[1..][i] == groups[i + 1];
  }

  lemma ProjectionCons(groups: seq<Json>)
    requires groups != [] && IsGroup(groups[0])
    ensures var (rest, id) := (Projection(groups[1..]), groups[0].fields["id"].s);
      Projection(groups) == if id in rest then rest else rest[id := GroupValues(groups[0])]
  {
    ValuesAre(groups[0]);
  }

  lemma {:induction false} ProjectionOnly(groups: seq<Json>, name: string)
    requires AreGroups(groups) && name in Projection(groups)
    ensures Named(groups, name)
    decreases |groups|
  {
    TailAreGroups(groups);
    ProjectionCons(groups);
    if groups[0].fields["id"] != Str(name) {
      ProjectionOnly(groups[1..], name);
      var i :| 0 <= i < |groups| - 1 && IsGroup(groups[1..][i]) && groups[1..][i].fields["id"] == Str(name);
      assert groups[i + 1].fields["id"] == Str(name);
    }
  }

  lemma {:induction false} ProjectionHas(groups: seq<Json>, i: nat)
    requires AreGroups(groups) && i < |groups|
    ensures groups[i].fields["id"].s in Projection(groups)
    ensures Projection(groups)[groups[i].fields["id"].s] == GroupValues(groups[i])
    decreases |groups|
  {
    TailAreGroups(groups);
    ProjectionCons(groups);
    var id := groups[0].fields["id"].s;
    if i > 0 {
      ProjectionHas(groups[1..], i - 1);
    } else if id in Projection(groups[1..]) {
      ProjectionOnly(groups[1..], id);
      assert false;
    }
  }

  lemma ProjectionHolds(groups: seq<Json>)
    requires AreGroups(groups)
    ensures Holds(Projection(groups), groups)
  {
    forall i | 0 <= i < |groups| ensures groups[i].fields["id"].s in Projection(groups)
      && Projection(groups)[groups[i].fields["id"].s] == GroupValues(groups[i])
    {
      ProjectionHas(groups, i);
    }
    forall name | name in Projection(groups) ensures Named(groups, name) {
      ProjectionOnly(groups, name);
    }
  }

  /** At most one object holds given groups. */
  lemma HeldOnce(o: Object, p: Object, groups: seq<Json>)
    requires AreGroups(groups) && Holds(o, groups) && Holds(p, groups)
    ensures o == p
  {
    forall name | name in o || name in p ensures name in o && name in p && o[name] == p[name] {
      var i :| 0 <= i < |groups| && IsGroup(groups[i]) && groups[i].fields["id"] == Str(name);
      assert groups[i].fields["id"].s == name;
    }
  }

  /** Do the objects hold the groups of both kinds, each under its own name? */
  ghost predicate HoldsGroups(objects: Object, channels: seq<Json>, keys: seq<Json>)
    requires AreGroups(channels) && AreGroups(keys)
  {
    && "channel_hash_groups" in objects && objects["channel_hash_groups"].Obj?
    && Holds(objects["channel_hash_groups"].fields, channels)
    && "pubkey_groups" in objects && objects["pubkey_groups"].Obj?
    && Holds(objects["pubkey_groups"].fields, keys)
  }

  lemma AcceptedAreGroups(j: Json)
    requires Groups(j).Some?
    ensures var g := Groups(j).value;
      GroupsByKind(g) && AreGroups(g["channel_hashes"].items) && AreGroups(g["pubkeys"].items)
  {
    ListedAreGroups(ChannelHashes, GetOr(j.fields, "channel_hashes", List([])).items);
    ListedAreGroups(PublicKeys, GetOr(j.fields, "pubkeys", List([])).items);
  }

  lemma ProjectedParts(objects: Object, groups: Object)
    requires GroupsByKind(groups)
    ensures var p := Projected(objects, groups);
      && "channel_hash_groups" in p && p["channel_hash_groups"] == Obj(Projection(groups["channel_hashes"].items))
      && "pubkey_groups" in p && p["pubkey_groups"] == Obj(Projection(groups["pubkeys"].items))
      && p - {"channel_hash_groups", "pubkey_groups"} == objects - {"channel_hash_groups", "pubkey_groups"}
  {
    NamesDiffer();
  }

  lemma UnchangedParts(objects: Object, p: Object)
    requires "channel_hash_groups" in objects && "channel_hash_groups" in p && "pubkey_groups" in objects
    requires "pubkey_groups" in p && p["channel_hash_groups"] == objects["channel_hash_groups"]
    requires p["pubkey_groups"] == objects["pubkey_groups"]
    requires p - {"channel_hash_groups", "pubkey_groups"} == objects - {"channel_hash_groups", "pubkey_groups"}
    ensures p == objects
  {
    forall k | k in p || k in objects ensures k in p && k in objects && p[k] == objects[k] {
      if k !in {"channel_hash_groups", "pubkey_groups"} {
        assert k in p <==> k in p - {"channel_hash_groups", "pubkey_groups"};
        assert k in objects <==> k in objects - {"channel_hash_groups", "pubkey_groups"};
      }
    }
  }

  /** Projecting writes both kinds and nothing else, and changes nothing exactly if the objects hold them already. */
  lemma ProjectedHolds(objects: Object, groups: Object)
    requires GroupsByKind(groups) && AreGroups(groups["channel_hashes"].items) && AreGroups(groups["pubkeys"].items)
    ensures var p := Projected(objects, groups);
      && HoldsGroups(p, groups["channel_hashes"].items, groups["pubkeys"].items)
      && p - {"channel_hash_groups", "pubkey_groups"} == objects - {"channel_hash_groups", "pubkey_groups"}
      && (p == objects <==> HoldsGroups(objects, groups["channel_hashes"].items, groups["pubkeys"].items))
  {
    var (channels, keys) := (groups["channel_hashes"].items, groups["pubkeys"].items);
    ProjectionHolds(channels);
    ProjectionHolds(keys);
    ProjectedParts(objects, groups);
    if HoldsGroups(objects, channels, keys) {
      HeldOnce(objects["channel_hash_groups"].fields, Projection(channels), channels);
      HeldOnce(objects["pubkey_groups"].fields, Projection(keys), keys);
      UnchangedParts(objects, Projected(objects, groups));
    }
  }

  lemma NamesDiffer()
    ensures "channel_hash_groups" != "pubkey_groups"
  {
  }

  // ---------------------------------------------------------------- references

  predicate Dotless(s: string) {
    forall i | 0 <= i < |s| :: s[i] != '.'
  }

  lemma {:induction false} SplitAtDot(a: string, b: string)
    requires Dotless(a)
    ensures SplitDot(a + "." + b) == Some((a, b))
  {
    if a == "" {
      assert (a + "." + b)[1..] == b;
    } else {
      assert (a + "." + b)[1..] == a[1..] + "." + b;
      SplitAtDot(a[1..], b);
      assert a == [a[0]] + a[1..];
    }
  }

  lemma ObjectNames()
    ensures Dotless("channel_hash_groups") && Dotless("pubkey_groups")
  {
  }

  /** A reference resolves by object and key. */
  lemma ResolveNamed(objects: Object, name: string, key: string)
    requires Dotless(name)
    ensures Resolve(objects, Str("@" + name + "." + key))
      == if name in objects && objects[name].Obj? && key in objects[name].fields
         then Some(objects[name].fields[key]) else None
  {
    var s := "@" + name + "." + key;
    assert s[0] == '@' && s[1..] == name + "." + key;
    SplitAtDot(name, key);
  }

  /** What references to one kind of groups resolve to: each id to its group's values in order, any other name to
      nothing. */
  ghost predicate ReferencesAre(objects: Object, name: string, groups: seq<Json>)
    requires AreGroups(groups)
  {
    && (forall i | 0 <= i < |groups| ::
          Resolve(objects, Str("@" + name + "." + groups[i].fields["id"].s)) == Some(GroupValues(groups[i])))
    && (forall key :: Resolve(objects, Str("@" + name + "." + key)).Some? ==> Named(groups, key))
  }

  lemma HeldReferences(objects: Object, name: string, groups: seq<Json>)
    requires AreGroups(groups) && Dotless(name)
    requires name in objects && objects[name].Obj? && Holds(objects[name].fields, groups)
    ensures ReferencesAre(objects, name, groups)
  {
    forall i | 0 <= i < |groups|
      ensures Resolve(objects, Str("@" + name + "." + groups[i].fields["id"].s)) == Some(GroupValues(groups[i]))
    {
      ResolveNamed(objects, name, groups[i].fields["id"].s);
    }
    forall key ensures Resolve(objects, Str("@" + name + "." + key)).Some? ==> Named(groups, key) {
      ResolveNamed(objects, name, key);
    }
  }

  /** The objects a document came with. */
  function GivenObjects(j: Json): Object {
    if j.Obj? && EngineConfig(j.fields).Some? then
      var objects := GetOr(EngineConfig(j.fields).value, "objects", Obj(map[]));
      if objects.Obj? then objects.fields else map[]
    else map[]
  }

  /** In every accepted document whose groups are projected, "@channel_hash_groups.<id>" and "@pubkey_groups.<id>"
      resolve to the values of the entries of the channel or key group of that id, in their order, and to nothing for
      any other name; all other objects are as they came. A document that is not projected keeps its objects. */
  lemma ReferencesResolve(j: Json, existing: Option<Json>, project: bool)
    requires Normalize(j, existing, project).Some?
    ensures var d := Normalize(j, existing, project).value;
      && GroupsByKind(d.groups) && AreGroups(d.groups["channel_hashes"].items) && AreGroups(d.groups["pubkeys"].items)
      && "objects" in d.engine && d.engine["objects"].Obj?
      && var objects := d.engine["objects"].fields;
         if project && ("groups" in j.fields || existing.Some?) then
           && ReferencesAre(objects, "channel_hash_groups", d.groups["channel_hashes"].items)
           && ReferencesAre(objects, "pubkey_groups", d.groups["pubkeys"].items)
           && objects - {"channel_hash_groups", "pubkey_groups"}
              == GivenObjects(j) - {"channel_hash_groups", "pubkey_groups"}
         else objects == GivenObjects(j)
  {
    var d := Normalize(j, existing, project).value;
    NormalShape(j, existing, project);
    AcceptedAreGroups(GetOr(j.fields, "groups", if existing.Some? then existing.value else Obj(map[])));
    NormalObjects(j, existing, project);
    if project && CarriesGroups(j.fields, existing) {
      ProjectedHolds(GivenObjects(j), d.groups);
      ObjectNames();
      HeldReferences(d.engine["objects"].fields, "channel_hash_groups", d.groups["channel_hashes"].items);
      HeldReferences(d.engine["objects"].fields, "pubkey_groups", d.groups["pubkeys"].items);
    }
  }

  /** A comparison with such a reference decides as the same comparison with the list itself. */
  lemma ReferenceIsItsList(known: Known, name: string, groups: seq<Json>, i: nat, c: Object, probe: Probe)
    requires AreGroups(groups) && i < |groups| && ReferencesAre(known.objects, name, groups)
    ensures ConditionMatches(known, c["value" := Str("@" + name + "." + groups[i].fields["id"].s)], probe)
       <==> ConditionMatches(known, c["value" := GroupValues(groups[i])], probe)
  {
    var a := c["value" := Str("@" + name + "." + groups[i].fields["id"].s)];
    var b := c["value" := GroupValues(groups[i])];
    assert Resolve(known.objects, Get(a, "value")) == Resolve(known.objects, Get(b, "value"));
    assert GetOr(a, "op", Str("equals")) == GetOr(b, "op", Str("equals")) && Get(a, "field") == Get(b, "field");
  }

  lemma NormalObjects(j: Json, existing: Option<Json>, project: bool)
    requires Normalize(j, existing, project).Some? && GroupsByKind(Normalize(j, existing, project).value.groups)
    ensures var d := Normalize(j, existing, project).value;
      "objects" in d.engine
      && d.engine["objects"] == Obj(Objects(GivenObjects(j), d.groups, project && CarriesGroups(j.fields, existing)))
  {
    NormalShape(j, existing, project);
    var given := EngineConfig(j.fields).value;
    assert (DEFAULTS + given)["objects"] == GetOr(given, "objects", Obj(map[]));
  }
}
