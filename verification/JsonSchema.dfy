/** The schema normalisation of the build scripts, and what it means for the
    instances a schema accepts. */
module JsonSchema {

  /** JSON values. Objects are unordered here: member order carries no meaning. */
  datatype Json =
    | Null
    | Bool(b: bool)
    | Num(n: real)
    | Str(s: string)
    | Arr(items: seq<Json>)
    | Obj(members: map<string, Json>)

  type Members = map<string, Json>

  predicate Has(m: Members, key: string, value: Json) {
    key in m && m[key] == value
  }

  // normalize_schema

  /** An open object with an empty list of properties. */
  predicate OpenAndEmpty(m: Members) {
    Has(m, "additionalProperties", Bool(true)) && Has(m, "properties", Obj(map[]))
  }

  predicate AllStrings(vs: seq<Json>) {
    forall i :: 0 <= i < |vs| ==> vs[i].Str?
  }

  /** A string type beside an enumeration of strings. */
  predicate TypedStringEnum(m: Members) {
    "enum" in m && m["enum"].Arr? && AllStrings(m["enum"].items) && Has(m, "type", Str("string"))
  }

  function Simplify(m: Members): Members {
    var m1 := if OpenAndEmpty(m) then m - {"properties"} else m;
    if TypedStringEnum(m1) then m1 - {"type"} else m1
  }

  function Children(m: Members): Members {
    map k | k in m :: Normalize(m[k])
  }

  function Normalize(v: Json): Json {
    match v
    case Obj(m) => Obj(Simplify(map k | k in m :: Normalize(m[k])))
    case Arr(vs) => Arr(seq(|vs|, i requires 0 <= i < |vs| => Normalize(vs[i])))
    case _ => v
  }

  /** The recursion over mutable values: children first, then the two removals. */
  method NormalizeSchema(v: Json) returns (r: Json)
    ensures r == Normalize(v)
    decreases v, 1
  {
    match v
    case Obj(m) =>
      var kept := NormalizeMembers(v);
      var openObject := "additionalProperties" in kept && kept["additionalProperties"] == Bool(true);
      var emptyProperties := "properties" in kept && kept["properties"] == Obj(map[]);
      if openObject && emptyProperties {
        kept := kept - {"properties"};
      }
      var stringEnum := "enum" in kept && kept["enum"].Arr? && AllStrings(kept["enum"].items);
      if stringEnum && "type" in kept && kept["type"] == Str("string") {
        kept := kept - {"type"};
      }
      r := Obj(kept);
    case Arr(vs) =>
      r := NormalizeItems(v);
    case _ => r := v;
  }

  method NormalizeMembers(v: Json) returns (kept: Members)
    requires v.Obj?
    ensures kept == Children(v.members)
    decreases v, 0
  {
    kept := v.members;
    var pending := v.members.Keys;
    while pending != {}
      invariant pending <= v.members.Keys == kept.Keys
      invariant forall k :: k in v.members ==> kept[k] == if k in pending then v.members[k] else Normalize(v.members[k])
      decreases |pending|
    {
      var k :| k in pending;
      var child := NormalizeSchema(v.members[k]);
      kept := kept[k := child];
      pending := pending - {k};
    }
  }

  method NormalizeItems(v: Json) returns (r: Json)
    requires v.Arr?
    ensures r == Normalize(v)
    decreases v, 0
  {
    var values := v.items;
    for i := 0 to |v.items|
      invariant |values| == |v.items|
      invariant forall j :: 0 <= j < |values| ==> values[j] == if j < i then Normalize(v.items[j]) else v.items[j]
    {
      var child := NormalizeSchema(v.items[i]);
      values := values[i := child];
    }
    r := Arr(values);
  }

  // Fixed points

  /** Nowhere in the value is there an object the rewrite applies to. */
  predicate Settled(v: Json) {
    match v
    case Obj(m) => !OpenAndEmpty(m) && !TypedStringEnum(m) && forall k :: k in m ==> Settled(m[k])
    case Arr(vs) => forall i :: 0 <= i < |vs| ==> Settled(vs[i])
    case _ => true
  }

  lemma {:induction false} SettledIsFixed(v: Json)
    requires Settled(v)
    ensures Normalize(v) == v
  {
    match v
    case Obj(m) =>
      forall k | k in m ensures Normalize(m[k]) == m[k] { SettledIsFixed(m[k]); }
      assert (map k | k in m :: Normalize(m[k])) == m;
    case Arr(vs) =>
      forall i | 0 <= i < |vs| ensures Normalize(vs[i]) == vs[i] { SettledIsFixed(vs[i]); }
    case _ =>
  }

  lemma {:induction false} NormalizeSettles(v: Json)
    ensures Settled(Normalize(v))
  {
    match v
    case Obj(m) =>
      var c := map k | k in m :: Normalize(m[k]);
      forall k | k in m ensures Settled(c[k]) { NormalizeSettles(m[k]); }
      var s := Simplify(c);
      assert Normalize(v) == Obj(s);
      assert forall k :: k in s ==> k in m && s[k] == c[k];
    case Arr(vs) =>
      forall i | 0 <= i < |vs| ensures Settled(Normalize(vs[i])) { NormalizeSettles(vs[i]); }
    case _ =>
  }

  /** Normalising twice is normalising once, on every JSON value; and a value is
      left alone exactly when no rewrite applies anywhere in it. */
  lemma {:induction false} NormalizeIsIdempotent(v: Json)
    ensures Normalize(Normalize(v)) == Normalize(v)
    ensures Normalize(v) == v <==> Settled(v)
  {
    NormalizeSettles(v);
    SettledIsFixed(Normalize(v));
    if Settled(v) { SettledIsFixed(v); }
  }

  // What a schema accepts

  predicate TypeMatches(t: string, v: Json) {
    match v
    case Null => t == "null"
    case Bool(_) => t == "boolean"
    case Num(n) => t == "number" || (t == "integer" && n.Floor as real == n)
    case Str(_) => t == "string"
    case Arr(_) => t == "array"
    case Obj(_) => t == "object"
  }

  predicate TypeOk(m: Members, v: Json) {
    "type" in m ==>
      match m["type"]
      case Str(t) => TypeMatches(t, v)
      case Arr(ts) => exists i :: 0 <= i < |ts| && ts[i].Str? && TypeMatches(ts[i].s, v)
      case _ => true
  }

  predicate LiteralsOk(m: Members, v: Json) {
    && ("enum" in m && m["enum"].Arr? ==> v in m["enum"].items)
    && ("const" in m ==> v == m["const"])
  }

  predicate RequiredOk(m: Members, v: Json) {
    "required" in m && m["required"].Arr? && v.Obj? ==>
      forall i :: 0 <= i < |m["required"].items| && m["required"].items[i].Str? ==> m["required"].items[i].s in v.members
  }

  /** The properties a schema object names. */
  function Named(m: Members): Members {
    if "properties" in m && m["properties"].Obj? then m["properties"].members else map[]
  }

  const DEFINITIONS := "#/$defs/"

  /** The definition a `$ref` of this document points to. */
  function Target(m: Members): (name: string)
    requires "$ref" in m && m["$ref"].Str?
  {
    var path := m["$ref"].s;
    if DEFINITIONS <= path then path[|DEFINITIONS|..] else path
  }

  predicate Resolves(defs: Members, m: Members)
    requires "$ref" in m && m["$ref"].Str?
  {
    DEFINITIONS <= m["$ref"].s && Target(m) in defs
  }

  /** JSON Schema 2020-12 over the vocabulary of the contracts: `type`, `enum`,
      `const`, `required`, `properties`, `additionalProperties`, `items`, `oneOf`
      and `$ref` into the document's `$defs`; every other keyword is an annotation.
      At most `hops` references are followed, so that circular references mean
      something; an unresolved reference accepts nothing. */
  ghost predicate Accepts(defs: Members, schema: Json, v: Json, hops: nat)
    decreases hops, schema, 1
  {
    match schema
    case Bool(b) => b
    case Obj(m) =>
      && TypeOk(m, v) && LiteralsOk(m, v) && RequiredOk(m, v)
      && PropertiesOk(defs, schema, v, hops)
      && ItemsOk(defs, schema, v, hops)
      && OneOfOk(defs, schema, v, hops)
      && ReferenceOk(defs, schema, v, hops)
    case _ => true
  }

  /** `properties` and `additionalProperties`. */
  ghost predicate PropertiesOk(defs: Members, schema: Json, v: Json, hops: nat)
    requires schema.Obj?
    decreases hops, schema, 0
  {
    var m := schema.members;
    v.Obj? ==>
      forall k :: k in v.members ==>
        if k in Named(m) then Accepts(defs, m["properties"].members[k], v.members[k], hops)
        else "additionalProperties" in m ==> Accepts(defs, m["additionalProperties"], v.members[k], hops)
  }

  ghost predicate ItemsOk(defs: Members, schema: Json, v: Json, hops: nat)
    requires schema.Obj?
    decreases hops, schema, 0
  {
    var m := schema.members;
    "items" in m && v.Arr? ==> forall i :: 0 <= i < |v.items| ==> Accepts(defs, m["items"], v.items[i], hops)
  }

  ghost predicate OneOfOk(defs: Members, schema: Json, v: Json, hops: nat)
    requires schema.Obj?
    decreases hops, schema, 0
  {
    var m := schema.members;
    "oneOf" in m && m["oneOf"].Arr? ==> Matches(defs, m["oneOf"], |m["oneOf"].items|, v, hops) == 1
  }

  /** How many of the first `n` choices accept the value. */
  ghost function Matches(defs: Members, choices: Json, n: nat, v: Json, hops: nat): nat
    requires choices.Arr? && n <= |choices.items|
    decreases hops, choices, 0, n
  {
    if n == 0 then 0
    else Matches(defs, choices, n - 1, v, hops) + if Accepts(defs, choices.items[n - 1], v, hops) then 1 else 0
  }

  ghost predicate ReferenceOk(defs: Members, schema: Json, v: Json, hops: nat)
    requires schema.Obj?
    decreases hops, schema, 0
  {
    var m := schema.members;
    "$ref" in m && m["$ref"].Str? ==> hops > 0 && Resolves(defs, m) && Accepts(defs, defs[Target(m)], v, hops - 1)
  }

  // When normalising keeps the meaning

  predicate RewritesNames(names: Members) {
    OpenAndEmpty(names) || TypedStringEnum(names)
  }

  /** The entries a map from names to schemas loses when it is rewritten as if it
      were a schema itself. */
  function Lost(names: Members): set<string> {
    (if OpenAndEmpty(names) then {"properties"} else {}) + (if TypedStringEnum(names) then {"type"} else {})
  }

  predicate PlainLiterals(m: Members) {
    ("enum" in m ==> Settled(m["enum"])) && ("const" in m ==> Settled(m["const"]))
  }

  /** No name is lost, or whatever it named is allowed anyway. */
  predicate PlainNames(m: Members) {
    !RewritesNames(Named(m)) || "additionalProperties" !in m || m["additionalProperties"] == Bool(true)
  }

  /** The schemas inside a schema object are plain, and it refers to no definition
      that is gone. */
  predicate PlainParts(schema: Json, gone: set<string>)
    requires schema.Obj?
    decreases schema, 0
  {
    var m := schema.members;
    && ("properties" in m && m["properties"].Obj? ==>
          forall k :: k in m["properties"].members ==> Plain(m["properties"].members[k], gone))
    && ("additionalProperties" in m ==> Plain(m["additionalProperties"], gone))
    && ("items" in m ==> Plain(m["items"], gone))
    && ("oneOf" in m && m["oneOf"].Arr? ==> forall i :: 0 <= i < |m["oneOf"].items| ==> Plain(m["oneOf"].items[i], gone))
    && ("$ref" in m && m["$ref"].Str? && DEFINITIONS <= m["$ref"].s ==> Target(m) !in gone)
  }

  predicate Plain(schema: Json, gone: set<string>)
    decreases schema, 1
  {
    schema.Obj? ==> PlainLiterals(schema.members) && PlainNames(schema.members) && PlainParts(schema, gone)
  }

  function Definitions(root: Json): Members {
    if root.Obj? && "$defs" in root.members && root.members["$defs"].Obj? then root.members["$defs"].members else map[]
  }

  predicate PlainDocument(root: Json) {
    var gone := Lost(Definitions(root));
    Plain(root, gone) && forall d :: d in Definitions(root) ==> Plain(Definitions(root)[d], gone)
  }

  // Removing the two redundant members keeps the meaning of any schema object

  lemma EmptyPropertiesAreRedundant(defs: Members, m: Members, v: Json, hops: nat)
    requires OpenAndEmpty(m)
    ensures Accepts(defs, Obj(m - {"properties"}), v, hops) == Accepts(defs, Obj(m), v, hops)
  {
    var t := m - {"properties"};
    assert Named(m) == map[] && Named(t) == map[];
    assert PropertiesOk(defs, Obj(m), v, hops);
    assert PropertiesOk(defs, Obj(t), v, hops);
    SameOtherKeywords(defs, m, t, v, hops);
  }

  lemma StringTypeIsRedundant(defs: Members, m: Members, v: Json, hops: nat)
    requires TypedStringEnum(m)
    ensures Accepts(defs, Obj(m - {"type"}), v, hops) == Accepts(defs, Obj(m), v, hops)
  {
    var t := m - {"type"};
    assert Named(m) == Named(t);
    assert LiteralsOk(m, v) ==> v.Str?;
    assert PropertiesOk(defs, Obj(m), v, hops) == PropertiesOk(defs, Obj(t), v, hops);
    SameOtherKeywords(defs, m, t, v, hops);
  }

  lemma SameOtherKeywords(defs: Members, m: Members, t: Members, v: Json, hops: nat)
    requires forall k :: k != "properties" && k != "type" ==> (k in m <==> k in t) && (k in m ==> m[k] == t[k])
    ensures LiteralsOk(m, v) == LiteralsOk(t, v) && RequiredOk(m, v) == RequiredOk(t, v)
    ensures ItemsOk(defs, Obj(m), v, hops) == ItemsOk(defs, Obj(t), v, hops)
    ensures OneOfOk(defs, Obj(m), v, hops) == OneOfOk(defs, Obj(t), v, hops)
    ensures ReferenceOk(defs, Obj(m), v, hops) == ReferenceOk(defs, Obj(t), v, hops)
  {
  }

  lemma SimplifyKeepsMeaning(defs: Members, m: Members, v: Json, hops: nat)
    ensures Accepts(defs, Obj(Simplify(m)), v, hops) == Accepts(defs, Obj(m), v, hops)
  {
    var m1 := if OpenAndEmpty(m) then m - {"properties"} else m;
    if OpenAndEmpty(m) { EmptyPropertiesAreRedundant(defs, m, v, hops); }
    if TypedStringEnum(m1) { StringTypeIsRedundant(defs, m1, v, hops); }
  }

  // Normalising the children first changes neither guard

  lemma EmptyObjectsStay(v: Json)
    ensures Normalize(v) == Obj(map[]) <==> v == Obj(map[])
  {
    if v.Obj? {
      var c := map k | k in v.members :: Normalize(v.members[k]);
      if k :| k in v.members {
        assert k in c;
        if OpenAndEmpty(c) { assert "additionalProperties" in Simplify(c); }
        if TypedStringEnum(c) { assert "enum" in Simplify(c); }
        if !OpenAndEmpty(c) && !TypedStringEnum(c) { assert k in Simplify(c); }
      } else {
        assert c == map[];
      }
    }
  }

  lemma ItemsNormalize(vs: seq<Json>)
    ensures Normalize(Arr(vs)).Arr? && |Normalize(Arr(vs)).items| == |vs|
    ensures forall i :: 0 <= i < |vs| ==> Normalize(Arr(vs)).items[i] == Normalize(vs[i])
    ensures forall i :: 0 <= i < |vs| ==> (Normalize(Arr(vs)).items[i].Str? <==> vs[i].Str?)
    ensures forall i :: 0 <= i < |vs| && vs[i].Str? ==> Normalize(Arr(vs)).items[i] == vs[i]
  {
    forall i | 0 <= i < |vs| ensures Normalize(vs[i]).Str? <==> vs[i].Str? ensures vs[i].Str? ==> Normalize(vs[i]) == vs[i] {
    }
  }

  lemma StringListsStay(v: Json)
    requires v.Arr?
    ensures Normalize(v).Arr? && (AllStrings(Normalize(v).items) <==> AllStrings(v.items))
  {
    ItemsNormalize(v.items);
  }

  lemma GuardsStay(m: Members)
    ensures OpenAndEmpty(Children(m)) <==> OpenAndEmpty(m)
    ensures TypedStringEnum(Children(m)) <==> TypedStringEnum(m)
  {
    if "properties" in m { EmptyObjectsStay(m["properties"]); }
    if "enum" in m && m["enum"].Arr? { StringListsStay(m["enum"]); }
  }

  /** A map of names keeps its normalised schemas except for the lost names, which
      all named a schema that accepts everything. */
  lemma NamesNormalize(names: Members)
    ensures Normalize(Obj(names)) == Obj(Children(names) - Lost(names))
    ensures forall k :: k in Lost(names) ==> k in names && (names[k] == Obj(map[]) || names[k] == Str("string"))
    ensures Lost(names) == {} <==> !RewritesNames(names)
  {
    GuardsStay(names);
    assert (map k | k in names :: Normalize(names[k])) == Children(names);
    assert Simplify(Children(names)) == Children(names) - Lost(names);
    if OpenAndEmpty(names) { assert "properties" in Lost(names); }
    if TypedStringEnum(names) { assert "type" in Lost(names); }
  }

  lemma UnconstrainedAcceptsAll(defs: Members, v: Json, hops: nat)
    ensures Accepts(defs, Obj(map[]), v, hops)
  {
    assert Named(map[]) == map[];
  }

  lemma LostAcceptAll(defs: Members, names: Members, k: string, v: Json, hops: nat)
    requires k in Lost(names)
    ensures k in names && Accepts(defs, names[k], v, hops)
  {
    NamesNormalize(names);
    UnconstrainedAcceptsAll(defs, v, hops);
  }

  lemma NamedNormalize(m: Members)
    ensures Named(Children(m)) == Children(Named(m)) - Lost(Named(m))
  {
    if "properties" in m && m["properties"].Obj? {
      NamesNormalize(m["properties"].members);
    } else {
      NamesNormalize(map[]);
      assert Children(map[]) - Lost(map[]) == map[];
    }
  }

  // What a normalised schema accepts

  /** `t` are the normalised definitions but for those gone, and nothing refers to
      those. */
  ghost predicate Carries(defs: Members, t: Members, gone: set<string>) {
    && (forall d :: d in t <==> d in defs && d !in gone)
    && (forall d :: d in t ==> t[d] == Normalize(defs[d]))
    && (forall d :: d in defs ==> Plain(defs[d], gone))
  }

  /** Everything a schema object asks apart from its literals. */
  ghost predicate Framed(defs: Members, m: Members, v: Json, hops: nat) {
    && TypeOk(m, v) && RequiredOk(m, v)
    && PropertiesOk(defs, Obj(m), v, hops) && ItemsOk(defs, Obj(m), v, hops)
    && OneOfOk(defs, Obj(m), v, hops) && ReferenceOk(defs, Obj(m), v, hops)
  }

  /** Members under a lost name are additional properties once normalised. */
  ghost predicate LostAllowed(defs: Members, m: Members, v: Json, hops: nat) {
    v.Obj? && "additionalProperties" in m ==>
      forall k :: k in Lost(Named(m)) && k in v.members ==> Accepts(defs, m["additionalProperties"], v.members[k], hops)
  }

  lemma TypeStays(m: Members, v: Json)
    ensures TypeOk(Children(m), v) == TypeOk(m, v)
    ensures RequiredOk(Children(m), v) == RequiredOk(m, v)
  {
    if "type" in m && m["type"].Arr? { ItemsNormalize(m["type"].items); }
    if "required" in m && m["required"].Arr? { ItemsNormalize(m["required"].items); }
  }

  lemma LiteralsStay(m: Members, v: Json)
    requires PlainLiterals(m)
    ensures LiteralsOk(Children(m), v) == LiteralsOk(m, v)
  {
    if "enum" in m { SettledIsFixed(m["enum"]); }
    if "const" in m { SettledIsFixed(m["const"]); }
  }

  /** What is asked of one member of an object. */
  ghost predicate MemberOk(defs: Members, m: Members, k: string, w: Json, hops: nat) {
    if k in Named(m) then Accepts(defs, Named(m)[k], w, hops)
    else "additionalProperties" in m ==> Accepts(defs, m["additionalProperties"], w, hops)
  }

  lemma MembersOk(defs: Members, m: Members, v: Json, hops: nat)
    requires v.Obj?
    ensures PropertiesOk(defs, Obj(m), v, hops) <==> forall k :: k in v.members ==> MemberOk(defs, m, k, v.members[k], hops)
  {
  }

  lemma {:induction false} MemberNormalised(defs: Members, t: Members, gone: set<string>, m: Members, k: string, w: Json, hops: nat)
    requires PlainParts(Obj(m), gone) && Carries(defs, t, gone)
    ensures MemberOk(t, Children(m), k, w, hops) ==
      if k in Lost(Named(m)) then "additionalProperties" in m ==> Accepts(defs, m["additionalProperties"], w, hops)
      else MemberOk(defs, m, k, w, hops)
    decreases hops, Obj(m), 0
  {
    NamedNormalize(m);
    NamesNormalize(Named(m));
    if k in Named(m) && k !in Lost(Named(m)) {
      assert Named(Children(m))[k] == Normalize(Named(m)[k]);
      MeaningStays(defs, t, gone, m["properties"].members[k], w, hops);
    } else if "additionalProperties" in m {
      MeaningStays(defs, t, gone, m["additionalProperties"], w, hops);
    }
  }

  lemma {:induction false} PropertiesNormalised(defs: Members, t: Members, gone: set<string>, m: Members, v: Json, hops: nat)
    requires PlainParts(Obj(m), gone) && Carries(defs, t, gone)
    ensures PropertiesOk(t, Obj(Children(m)), v, hops) == (PropertiesOk(defs, Obj(m), v, hops) && LostAllowed(defs, m, v, hops))
    decreases hops, Obj(m), 1
  {
    if v.Obj? {
      MembersOk(defs, m, v, hops);
      MembersOk(t, Children(m), v, hops);
      forall k | k in v.members
        ensures MemberOk(t, Children(m), k, v.members[k], hops) ==
          if k in Lost(Named(m)) then "additionalProperties" in m ==> Accepts(defs, m["additionalProperties"], v.members[k], hops)
          else MemberOk(defs, m, k, v.members[k], hops)
        ensures k in Lost(Named(m)) ==> MemberOk(defs, m, k, v.members[k], hops) {
        MemberNormalised(defs, t, gone, m, k, v.members[k], hops);
        if k in Lost(Named(m)) { LostAcceptAll(defs, Named(m), k, v.members[k], hops); }
      }
    }
  }

  lemma {:induction false} ItemsStay(defs: Members, t: Members, gone: set<string>, m: Members, v: Json, hops: nat)
    requires PlainParts(Obj(m), gone) && Carries(defs, t, gone)
    ensures ItemsOk(t, Obj(Children(m)), v, hops) == ItemsOk(defs, Obj(m), v, hops)
    decreases hops, Obj(m), 1
  {
    if "items" in m && v.Arr? {
      forall i | 0 <= i < |v.items|
        ensures Accepts(t, Children(m)["items"], v.items[i], hops) == Accepts(defs, m["items"], v.items[i], hops) {
        MeaningStays(defs, t, gone, m["items"], v.items[i], hops);
      }
    }
  }

  lemma {:induction false} MatchesStay(defs: Members, t: Members, gone: set<string>, choices: Json, n: nat, v: Json, hops: nat)
    requires choices.Arr? && Carries(defs, t, gone) && n <= |choices.items|
    requires forall i :: 0 <= i < |choices.items| ==> Plain(choices.items[i], gone)
    ensures Normalize(choices).Arr? && |Normalize(choices).items| == |choices.items|
    ensures Matches(t, Normalize(choices), n, v, hops) == Matches(defs, choices, n, v, hops)
    decreases hops, choices, 0, n
  {
    ItemsNormalize(choices.items);
    if n > 0 {
      MatchesStay(defs, t, gone, choices, n - 1, v, hops);
      MeaningStays(defs, t, gone, choices.items[n - 1], v, hops);
    }
  }

  lemma {:induction false} OneOfStays(defs: Members, t: Members, gone: set<string>, m: Members, v: Json, hops: nat)
    requires PlainParts(Obj(m), gone) && Carries(defs, t, gone)
    ensures OneOfOk(t, Obj(Children(m)), v, hops) == OneOfOk(defs, Obj(m), v, hops)
    decreases hops, Obj(m), 1
  {
    if "oneOf" in m && m["oneOf"].Arr? {
      MatchesStay(defs, t, gone, m["oneOf"], |m["oneOf"].items|, v, hops);
    }
  }

  lemma TargetStays(defs: Members, t: Members, gone: set<string>, m: Members)
    requires "$ref" in m && m["$ref"].Str? && PlainParts(Obj(m), gone) && Carries(defs, t, gone)
    ensures Children(m)["$ref"] == m["$ref"] && (Resolves(t, Children(m)) <==> Resolves(defs, m))
    ensures Resolves(defs, m) ==> Target(m) in t
  {
    assert Children(m)["$ref"] == m["$ref"];
  }

  lemma SameReference(defs: Members, m: Members, t: Members, c: Members, v: Json, hops: nat)
    requires "$ref" in m && "$ref" in c && c["$ref"] == m["$ref"] && m["$ref"].Str?
    requires Resolves(t, c) <==> Resolves(defs, m)
    requires hops > 0 && Resolves(defs, m) ==>
               Accepts(t, t[Target(c)], v, hops - 1) == Accepts(defs, defs[Target(m)], v, hops - 1)
    ensures ReferenceOk(t, Obj(c), v, hops) == ReferenceOk(defs, Obj(m), v, hops)
  {
  }

  lemma {:induction false} TargetMeaning(defs: Members, t: Members, gone: set<string>, m: Members, v: Json, hops: nat)
    requires "$ref" in m && m["$ref"].Str? && Carries(defs, t, gone)
    requires hops > 0 && Resolves(defs, m) && Target(m) in t
    ensures Accepts(t, t[Target(m)], v, hops - 1) == Accepts(defs, defs[Target(m)], v, hops - 1)
    decreases hops, Obj(m), 0
  {
    MeaningStays(defs, t, gone, defs[Target(m)], v, hops - 1);
  }

  lemma {:induction false} ReferenceStays(defs: Members, t: Members, gone: set<string>, m: Members, v: Json, hops: nat)
    requires PlainParts(Obj(m), gone) && Carries(defs, t, gone)
    ensures ReferenceOk(t, Obj(Children(m)), v, hops) == ReferenceOk(defs, Obj(m), v, hops)
    decreases hops, Obj(m), 1
  {
    if "$ref" in m && m["$ref"].Str? {
      TargetStays(defs, t, gone, m);
      if hops > 0 && Resolves(defs, m) { TargetMeaning(defs, t, gone, m, v, hops); }
      SameReference(defs, m, t, Children(m), v, hops);
    }
  }

  /** Exactly what a normalised schema object accepts, whatever its own literals and
      names: the literals are the normalised ones, and members under lost names must
      also pass as additional properties. */
  lemma {:induction false} Normalised(defs: Members, t: Members, gone: set<string>, m: Members, v: Json, hops: nat)
    requires PlainParts(Obj(m), gone) && Carries(defs, t, gone)
    ensures Accepts(t, Normalize(Obj(m)), v, hops)
         == (Framed(defs, m, v, hops) && LiteralsOk(Children(m), v) && LostAllowed(defs, m, v, hops))
    decreases hops, Obj(m), 2
  {
    var c := Children(m);
    assert (map k | k in m :: Normalize(m[k])) == c;
    SimplifyKeepsMeaning(t, c, v, hops);
    TypeStays(m, v);
    PropertiesNormalised(defs, t, gone, m, v, hops);
    ItemsStay(defs, t, gone, m, v, hops);
    OneOfStays(defs, t, gone, m, v, hops);
    ReferenceStays(defs, t, gone, m, v, hops);
  }

  lemma {:induction false} MeaningStays(defs: Members, t: Members, gone: set<string>, schema: Json, v: Json, hops: nat)
    requires Plain(schema, gone) && Carries(defs, t, gone)
    ensures Accepts(t, Normalize(schema), v, hops) == Accepts(defs, schema, v, hops)
    decreases hops, schema, 3
  {
    if schema.Obj? {
      var m := schema.members;
      Normalised(defs, t, gone, m, v, hops);
      LiteralsStay(m, v);
      NamesNormalize(Named(m));
      assert LostAllowed(defs, m, v, hops);
    }
  }

  lemma MemberNormalizes(m: Members, key: string)
    requires key in m && key != "properties" && key != "type"
    ensures Normalize(Obj(m)).Obj? && key in Normalize(Obj(m)).members
    ensures Normalize(Obj(m)).members[key] == Normalize(m[key])
  {
    assert (map k | k in m :: Normalize(m[k])) == Children(m);
  }

  lemma DefinitionsNormalize(root: Json)
    ensures Definitions(Normalize(root)) == Children(Definitions(root)) - Lost(Definitions(root))
  {
    if root.Obj? && "$defs" in root.members {
      MemberNormalizes(root.members, "$defs");
      if root.members["$defs"].Obj? { NamesNormalize(root.members["$defs"].members); }
    } else if root.Obj? {
      assert (map k | k in root.members :: Normalize(root.members[k])) == Children(root.members);
    }
  }

  lemma NormalisedDefinitions(root: Json)
    requires PlainDocument(root)
    ensures var defs := Definitions(root); Carries(defs, Definitions(Normalize(root)), Lost(defs))
  {
    DefinitionsNormalize(root);
  }

  /** A normalised document accepts exactly the instances the original accepts, if
      its literals are settled, no property name is lost to a restricted rest, and no
      reference points to a lost definition. */
  lemma DocumentMeaningStays(root: Json, v: Json, hops: nat)
    requires PlainDocument(root)
    ensures Accepts(Definitions(Normalize(root)), Normalize(root), v, hops) == Accepts(Definitions(root), root, v, hops)
  {
    NormalisedDefinitions(root);
    MeaningStays(Definitions(root), Definitions(Normalize(root)), Lost(Definitions(root)), root, v, hops);
  }

  // The usual documents

  predicate Scalar(v: Json) { !v.Arr? && !v.Obj? }

  /** Names map to schemas, and none is called `properties`. */
  predicate OrdinaryNames(names: Members) {
    "properties" !in names && forall k :: k in names ==> names[k].Obj? || names[k].Bool?
  }

  /** Every literal is a scalar, every map of names ordinary. */
  predicate Ordinary(schema: Json) {
    match schema
    case Obj(m) =>
      && ("enum" in m ==> m["enum"].Arr? && forall i :: 0 <= i < |m["enum"].items| ==> Scalar(m["enum"].items[i]))
      && ("const" in m ==> Scalar(m["const"]))
      && ("properties" in m && m["properties"].Obj? ==>
            OrdinaryNames(m["properties"].members)
            && forall k :: k in m["properties"].members ==> Ordinary(m["properties"].members[k]))
      && ("additionalProperties" in m ==> Ordinary(m["additionalProperties"]))
      && ("items" in m ==> Ordinary(m["items"]))
      && ("oneOf" in m && m["oneOf"].Arr? ==> forall i :: 0 <= i < |m["oneOf"].items| ==> Ordinary(m["oneOf"].items[i]))
    case _ => true
  }

  lemma {:induction false} OrdinaryIsPlain(schema: Json)
    requires Ordinary(schema)
    ensures Plain(schema, {})
  {
    if schema.Obj? {
      var m := schema.members;
      if "properties" in m && m["properties"].Obj? {
        forall k | k in m["properties"].members ensures Plain(m["properties"].members[k], {}) {
          OrdinaryIsPlain(m["properties"].members[k]);
        }
      }
      if "additionalProperties" in m { OrdinaryIsPlain(m["additionalProperties"]); }
      if "items" in m { OrdinaryIsPlain(m["items"]); }
      if "oneOf" in m && m["oneOf"].Arr? {
        forall i | 0 <= i < |m["oneOf"].items| ensures Plain(m["oneOf"].items[i], {}) {
          OrdinaryIsPlain(m["oneOf"].items[i]);
        }
      }
    }
  }

  /** So a document of scalar literals in which nothing is named `properties`
      accepts exactly the same instances after normalising. */
  lemma OrdinaryDocumentsKeepMeaning(root: Json, v: Json, hops: nat)
    requires Ordinary(root) && OrdinaryNames(Definitions(root))
    requires forall d :: d in Definitions(root) ==> Ordinary(Definitions(root)[d])
    ensures Accepts(Definitions(Normalize(root)), Normalize(root), v, hops) == Accepts(Definitions(root), root, v, hops)
  {
    assert Lost(Definitions(root)) == {};
    OrdinaryIsPlain(root);
    forall d | d in Definitions(root) ensures Plain(Definitions(root)[d], {}) {
      OrdinaryIsPlain(Definitions(root)[d]);
    }
    DocumentMeaningStays(root, v, hops);
  }

  // Where it does not: literals

  ghost predicate SameMeaning(defs: Members, schema: Json, t: Members, schema': Json, hops: nat) {
    forall v :: Accepts(defs, schema, v, hops) == Accepts(t, schema', v, hops)
  }

  /** What the rest of a schema object accepts, one keyword for literals left out. */
  lemma LiteralKeyword(defs: Members, m: Members, key: string, v: Json, hops: nat)
    requires key == "enum" || key == "const"
    ensures Accepts(defs, Obj(m - {key}), v, hops) == (Framed(defs, m, v, hops) && LiteralsOk(m - {key}, v))
  {
    var t := m - {key};
    assert Named(t) == Named(m);
    assert PropertiesOk(defs, Obj(t), v, hops) == PropertiesOk(defs, Obj(m), v, hops);
    SameOtherKeywordsThanLiterals(defs, m, t, v, hops);
  }

  lemma SameOtherKeywordsThanLiterals(defs: Members, m: Members, t: Members, v: Json, hops: nat)
    requires forall k :: k != "enum" && k != "const" ==> (k in m <==> k in t) && (k in m ==> m[k] == t[k])
    ensures TypeOk(m, v) == TypeOk(t, v) && RequiredOk(m, v) == RequiredOk(t, v)
    ensures ItemsOk(defs, Obj(m), v, hops) == ItemsOk(defs, Obj(t), v, hops)
    ensures OneOfOk(defs, Obj(m), v, hops) == OneOfOk(defs, Obj(t), v, hops)
    ensures ReferenceOk(defs, Obj(m), v, hops) == ReferenceOk(defs, Obj(t), v, hops)
  {
  }

  /** The rest of the schema rejects this literal, and also what it becomes, unless
      that is listed already. */
  ghost predicate Excluded(defs: Members, m: Members, l: Json, hops: nat)
    requires "enum" in m && m["enum"].Arr?
  {
    && !Accepts(defs, Obj(m - {"enum"}), l, hops)
    && (Normalize(l) in m["enum"].items || !Accepts(defs, Obj(m - {"enum"}), Normalize(l), hops))
  }

  /** The literals of the normalised list: the settled ones, and the normal forms of
      the others. */
  lemma ListedAfter(literals: seq<Json>, v: Json)
    ensures v in Normalize(Arr(literals)).items <==> exists l :: l in literals && Normalize(l) == v
    ensures v in literals && Settled(v) ==> v in Normalize(Arr(literals)).items
    ensures v in literals && !Settled(v) ==> v !in Normalize(Arr(literals)).items
  {
    var after := Normalize(Arr(literals)).items;
    ItemsNormalize(literals);
    forall j | 0 <= j < |after| ensures Settled(after[j]) && literals[j] in literals && Normalize(literals[j]) == after[j] {
      NormalizeSettles(literals[j]);
    }
    if l :| l in literals && Normalize(l) == v {
      var i :| 0 <= i < |literals| && literals[i] == l;
      assert after[i] == v;
    }
    if Settled(v) { SettledIsFixed(v); }
  }

  /** An `enum` schema, whatever else it asks, means the same after normalising if
      and only if the rest of it excludes every unsettled literal. */
  lemma EnumStaysIffExcluded(defs: Members, t: Members, gone: set<string>, m: Members, hops: nat)
    requires "enum" in m && m["enum"].Arr? && PlainLiterals(m - {"enum"}) && PlainNames(m)
    requires PlainParts(Obj(m), gone) && Carries(defs, t, gone)
    ensures SameMeaning(defs, Obj(m), t, Normalize(Obj(m)), hops) <==>
              (forall l :: l in m["enum"].items && !Settled(l) ==> Excluded(defs, m, l, hops))
  {
    var literals, rest := m["enum"].items, m - {"enum"};
    forall v ensures Accepts(defs, Obj(m), v, hops) == (Accepts(defs, Obj(rest), v, hops) && v in literals)
             ensures Accepts(t, Normalize(Obj(m)), v, hops)
                       == (Accepts(defs, Obj(rest), v, hops) && v in Normalize(Arr(literals)).items) {
      EnumAfter(defs, t, gone, m, v, hops);
    }
    forall v ensures v in Normalize(Arr(literals)).items <==> exists l :: l in literals && Normalize(l) == v
             ensures v in literals && Settled(v) ==> v in Normalize(Arr(literals)).items
             ensures v in literals && !Settled(v) ==> v !in Normalize(Arr(literals)).items {
      ListedAfter(literals, v);
    }
    if forall l :: l in literals && !Settled(l) ==> Excluded(defs, m, l, hops) {
      forall v ensures Accepts(defs, Obj(m), v, hops) == Accepts(t, Normalize(Obj(m)), v, hops) {
        if v !in literals && v in Normalize(Arr(literals)).items {
          var l :| l in literals && Normalize(l) == v;
          if Settled(l) { SettledIsFixed(l); }
          assert Excluded(defs, m, l, hops);
        }
      }
    } else {
      var l :| l in literals && !Settled(l) && !Excluded(defs, m, l, hops);
      var v := if Accepts(defs, Obj(rest), l, hops) then l else Normalize(l);
      assert Accepts(defs, Obj(m), v, hops) != Accepts(t, Normalize(Obj(m)), v, hops);
    }
  }

  lemma EnumAfter(defs: Members, t: Members, gone: set<string>, m: Members, v: Json, hops: nat)
    requires "enum" in m && m["enum"].Arr? && PlainLiterals(m - {"enum"}) && PlainNames(m)
    requires PlainParts(Obj(m), gone) && Carries(defs, t, gone)
    ensures Accepts(defs, Obj(m), v, hops) == (Accepts(defs, Obj(m - {"enum"}), v, hops) && v in m["enum"].items)
    ensures Normalize(m["enum"]).Arr?
    ensures Accepts(t, Normalize(Obj(m)), v, hops) == (Accepts(defs, Obj(m - {"enum"}), v, hops) && v in Normalize(m["enum"]).items)
  {
    Normalised(defs, t, gone, m, v, hops);
    NamesNormalize(Named(m));
    assert LostAllowed(defs, m, v, hops);
    LiteralKeyword(defs, m, "enum", v, hops);
    if "const" in m {
      assert (m - {"enum"})["const"] == m["const"];
      SettledIsFixed(m["const"]);
    }
  }

  /** In particular a bare enumeration: if and only if all its literals are settled. */
  lemma EnumerationStaysIffSettled(defs: Members, t: Members, gone: set<string>, literals: seq<Json>, hops: nat)
    requires Carries(defs, t, gone)
    ensures var schema := Obj(map["enum" := Arr(literals)]);
            SameMeaning(defs, schema, t, Normalize(schema), hops) <==> Settled(Arr(literals))
  {
    var m := map["enum" := Arr(literals)];
    assert m - {"enum"} == map[];
    EnumStaysIffExcluded(defs, t, gone, m, hops);
    forall l ensures !Excluded(defs, m, l, hops) {
      UnconstrainedAcceptsAll(defs, l, hops);
    }
    if forall l :: l in literals ==> Settled(l) {
      assert forall i :: 0 <= i < |literals| ==> literals[i] in literals;
      assert Settled(Arr(literals));
    }
  }

  /** A `const` schema, whatever else it asks, means the same after normalising if and
      only if its value is settled or the rest excludes it and what it becomes. */
  lemma ConstStaysIffExcluded(defs: Members, t: Members, gone: set<string>, m: Members, hops: nat)
    requires "const" in m && PlainLiterals(m - {"const"}) && PlainNames(m)
    requires PlainParts(Obj(m), gone) && Carries(defs, t, gone)
    ensures SameMeaning(defs, Obj(m), t, Normalize(Obj(m)), hops) <==>
              (Settled(m["const"])
               || (!Accepts(defs, Obj(m - {"const"}), m["const"], hops)
                   && !Accepts(defs, Obj(m - {"const"}), Normalize(m["const"]), hops)))
  {
    var value, rest := m["const"], m - {"const"};
    forall v ensures Accepts(defs, Obj(m), v, hops) == (Accepts(defs, Obj(rest), v, hops) && v == value)
             ensures Accepts(t, Normalize(Obj(m)), v, hops) == (Accepts(defs, Obj(rest), v, hops) && v == Normalize(value)) {
      ConstAfter(defs, t, gone, m, v, hops);
    }
    NormalizeIsIdempotent(value);
    if !Settled(value) {
      assert Accepts(defs, Obj(m), value, hops) == Accepts(defs, Obj(rest), value, hops);
      assert Accepts(t, Normalize(Obj(m)), Normalize(value), hops) == Accepts(defs, Obj(rest), Normalize(value), hops);
    }
  }

  lemma ConstAfter(defs: Members, t: Members, gone: set<string>, m: Members, v: Json, hops: nat)
    requires "const" in m && PlainLiterals(m - {"const"}) && PlainNames(m)
    requires PlainParts(Obj(m), gone) && Carries(defs, t, gone)
    ensures Accepts(defs, Obj(m), v, hops) == (Accepts(defs, Obj(m - {"const"}), v, hops) && v == m["const"])
    ensures Accepts(t, Normalize(Obj(m)), v, hops) == (Accepts(defs, Obj(m - {"const"}), v, hops) && v == Normalize(m["const"]))
  {
    Normalised(defs, t, gone, m, v, hops);
    NamesNormalize(Named(m));
    assert LostAllowed(defs, m, v, hops);
    LiteralKeyword(defs, m, "const", v, hops);
    if "enum" in m {
      assert (m - {"const"})["enum"] == m["enum"];
      SettledIsFixed(m["enum"]);
    }
  }

  lemma ConstantStaysIffSettled(defs: Members, t: Members, gone: set<string>, value: Json, hops: nat)
    requires Carries(defs, t, gone)
    ensures var schema := Obj(map["const" := value]);
            SameMeaning(defs, schema, t, Normalize(schema), hops) <==> Settled(value)
  {
    var m := map["const" := value];
    assert m - {"const"} == map[];
    ConstStaysIffExcluded(defs, t, gone, m, hops);
    UnconstrainedAcceptsAll(defs, value, hops);
    UnconstrainedAcceptsAll(defs, Normalize(value), hops);
  }

  // Where it does not: names of properties

  /** A schema that names properties, whatever else it asks, means the same after
      normalising if and only if every object it accepts would pass with the members
      under lost names counted as additional properties. */
  lemma PropertiesStayIffLostAllowed(defs: Members, t: Members, gone: set<string>, m: Members, hops: nat)
    requires PlainLiterals(m) && PlainParts(Obj(m), gone) && Carries(defs, t, gone)
    ensures SameMeaning(defs, Obj(m), t, Normalize(Obj(m)), hops) <==>
              (forall v :: Accepts(defs, Obj(m), v, hops) ==> LostAllowed(defs, m, v, hops))
  {
    forall v ensures Accepts(t, Normalize(Obj(m)), v, hops) == (Accepts(defs, Obj(m), v, hops) && LostAllowed(defs, m, v, hops)) {
      Normalised(defs, t, gone, m, v, hops);
      LiteralsStay(m, v);
    }
    if SameMeaning(defs, Obj(m), t, Normalize(Obj(m)), hops) {
      forall v | Accepts(defs, Obj(m), v, hops) ensures LostAllowed(defs, m, v, hops) {
        assert Accepts(t, Normalize(Obj(m)), v, hops);
      }
    }
  }

  function NamesAndRest(names: Members, additional: Json): Members {
    map["properties" := Obj(names), "additionalProperties" := additional]
  }

  lemma OneMember(defs: Members, names: Members, additional: Json, k: string, w: Json, hops: nat)
    requires k in names && Accepts(defs, names[k], w, hops)
    ensures Accepts(defs, Obj(NamesAndRest(names, additional)), Obj(map[k := w]), hops)
  {
    assert Named(NamesAndRest(names, additional)) == names;
  }

  lemma RestrictedRestShows(defs: Members, names: Members, additional: Json, k: string, w: Json, hops: nat)
    requires k in Lost(names) && !Accepts(defs, additional, w, hops)
    ensures var m, v := NamesAndRest(names, additional), Obj(map[k := w]);
            Accepts(defs, Obj(m), v, hops) && !LostAllowed(defs, m, v, hops)
  {
    var m, v := NamesAndRest(names, additional), Obj(map[k := w]);
    LostAcceptAll(defs, names, k, w, hops);
    OneMember(defs, names, additional, k, w, hops);
    assert Named(m) == names && k in v.members && v.members[k] == w;
  }

  lemma UnrestrictedRestHides(defs: Members, m: Members, hops: nat)
    requires "additionalProperties" in m && forall w :: Accepts(defs, m["additionalProperties"], w, hops)
    ensures forall v :: LostAllowed(defs, m, v, hops)
  {
  }

  /** One value the additional properties reject, under a lost name, tells the
      normalised schema from the original. */
  lemma LostNameTells(defs: Members, t: Members, gone: set<string>, names: Members, additional: Json, w: Json, hops: nat)
    requires RewritesNames(names) && PlainParts(Obj(NamesAndRest(names, additional)), gone) && Carries(defs, t, gone)
    requires !Accepts(defs, additional, w, hops)
    ensures var schema := Obj(NamesAndRest(names, additional)); !SameMeaning(defs, schema, t, Normalize(schema), hops)
  {
    var m := NamesAndRest(names, additional);
    NamesNormalize(names);
    var k :| k in Lost(names);
    RestrictedRestShows(defs, names, additional, k, w, hops);
    Normalised(defs, t, gone, m, Obj(map[k := w]), hops);
  }

  /** For `properties` and `additionalProperties` alone, when the map of property
      names itself looks like a schema the rewrite applies to: if and only if the
      additional properties are unrestricted. */
  lemma RewrittenNamesStayIffUnrestricted(defs: Members, t: Members, gone: set<string>, names: Members, additional: Json, hops: nat)
    requires RewritesNames(names) && PlainParts(Obj(NamesAndRest(names, additional)), gone) && Carries(defs, t, gone)
    ensures var schema := Obj(NamesAndRest(names, additional));
            SameMeaning(defs, schema, t, Normalize(schema), hops) <==> forall w :: Accepts(defs, additional, w, hops)
  {
    if forall w :: Accepts(defs, additional, w, hops) {
      PropertiesStayIffLostAllowed(defs, t, gone, NamesAndRest(names, additional), hops);
      UnrestrictedRestHides(defs, NamesAndRest(names, additional), hops);
    } else {
      var w :| !Accepts(defs, additional, w, hops);
      LostNameTells(defs, t, gone, names, additional, w, hops);
    }
  }

  // Where it does not: names of definitions

  function Referring(defs: Members, name: string): Json {
    Obj(map["$defs" := Obj(defs), "$ref" := Str(DEFINITIONS + name)])
  }

  lemma ReferringNormalizes(defs: Members, name: string)
    ensures Normalize(Referring(defs, name)) == Obj(Children(Referring(defs, name).members))
  {
    var m := Referring(defs, name).members;
    assert (map k | k in m :: Normalize(m[k])) == Children(m);
    assert !OpenAndEmpty(Children(m)) && !TypedStringEnum(Children(m));
  }

  lemma ReferringParts(defs: Members, name: string)
    ensures var root := Referring(defs, name);
            && Definitions(root) == defs && Target(root.members) == name && Named(root.members) == map[]
            && Normalize(root).Obj? && Normalize(root).members == Children(root.members)
            && Definitions(Normalize(root)) == Children(defs) - Lost(defs)
  {
    ReferringNormalizes(defs, name);
    DefinitionsNormalize(Referring(defs, name));
  }

  lemma ReferringAccepts(defs: Members, m: Members, name: string, v: Json, hops: nat)
    requires m.Keys == {"$defs", "$ref"} && m["$ref"] == Str(DEFINITIONS + name)
    ensures Accepts(defs, Obj(m), v, hops) == (hops > 0 && name in defs && Accepts(defs, defs[name], v, hops - 1))
  {
    assert Named(m) == map[];
    assert Target(m) == name;
  }

  /** A document that is a reference into its own definitions, which refer to no lost
      one, means the same after normalising if and only if the definition it refers to
      is not lost. */
  lemma ReferenceStaysIffNotLost(defs: Members, name: string)
    requires forall d :: d in defs ==> Plain(defs[d], Lost(defs))
    ensures var root := Referring(defs, name);
            (forall hops: nat :: SameMeaning(defs, root, Definitions(Normalize(root)), Normalize(root), hops))
              <==> name !in Lost(defs)
  {
    var root := Referring(defs, name);
    ReferringParts(defs, name);
    if name in Lost(defs) {
      LostReferenceFails(defs, name, Null, 1);
      assert !SameMeaning(defs, root, Definitions(Normalize(root)), Normalize(root), 1);
    } else {
      forall hops: nat ensures SameMeaning(defs, root, Definitions(Normalize(root)), Normalize(root), hops) {
        forall v ensures Accepts(defs, root, v, hops) == Accepts(Definitions(Normalize(root)), Normalize(root), v, hops) {
          DocumentMeaningStays(root, v, hops);
        }
      }
    }
  }

  lemma LostReferenceAccepts(defs: Members, name: string, v: Json, hops: nat)
    requires name in Lost(defs) && hops > 0
    ensures Accepts(defs, Referring(defs, name), v, hops)
  {
    LostAcceptAll(defs, defs, name, v, hops - 1);
    ReferringAccepts(defs, Referring(defs, name).members, name, v, hops);
  }

  /** A reference to a lost definition accepts everything before, and nothing after. */
  lemma LostReferenceFails(defs: Members, name: string, v: Json, hops: nat)
    requires name in Lost(defs)
    ensures var root := Referring(defs, name);
            && Definitions(root) == defs && (hops > 0 ==> Accepts(defs, root, v, hops))
            && !Accepts(Definitions(Normalize(root)), Normalize(root), v, hops)
  {
    var root := Referring(defs, name);
    if hops > 0 { LostReferenceAccepts(defs, name, v, hops); }
    ReferringParts(defs, name);
    ReferringAccepts(Definitions(Normalize(root)), Normalize(root).members, name, v, hops);
  }

  // One schema of each family

  /** An open object without properties, as a schema or as a literal. */
  const OPEN := map["additionalProperties" := Bool(true), "properties" := Obj(map[])]

  lemma NoDefinitions()
    ensures Carries(map[], map[], {})
  {
  }

  lemma OpenIsRewritten()
    ensures OpenAndEmpty(OPEN) && !TypedStringEnum(OPEN) && !Settled(Obj(OPEN)) && Lost(OPEN) == {"properties"}
  {
  }

  /** Listing that literal changes what an enumeration accepts. */
  lemma EnumChanges(hops: nat)
    ensures var schema := Obj(map["enum" := Arr([Obj(OPEN)])]); !SameMeaning(map[], schema, map[], Normalize(schema), hops)
  {
    NoDefinitions();
    OpenIsRewritten();
    var literals := [Obj(OPEN)];
    assert !Settled(literals[0]);
    EnumerationStaysIffSettled(map[], map[], {}, literals, hops);
  }

  lemma ConstChanges(hops: nat)
    ensures var schema := Obj(map["const" := Obj(OPEN)]); !SameMeaning(map[], schema, map[], Normalize(schema), hops)
  {
    NoDefinitions();
    OpenIsRewritten();
    ConstantStaysIffSettled(map[], map[], {}, Obj(OPEN), hops);
  }

  /** So does a property named `properties` beside one named `additionalProperties`,
      in an object otherwise closed. */
  lemma PropertyChanges(hops: nat)
    ensures var schema := Obj(NamesAndRest(OPEN, Bool(false))); !SameMeaning(map[], schema, map[], Normalize(schema), hops)
  {
    NoDefinitions();
    OpenIsRewritten();
    var none: Members := map[];
    var closed := Bool(false);
    RewrittenNamesStayIffUnrestricted(none, none, {}, OPEN, closed, hops);
    assert !Accepts(none, closed, Null, hops);
    assert !SameMeaning(none, Obj(NamesAndRest(OPEN, closed)), none, Normalize(Obj(NamesAndRest(OPEN, closed))), hops);
  }

  /** And a reference to a definition named `properties` goes from accepting
      everything to accepting nothing. */
  lemma DefinitionChanges(v: Json, hops: nat)
    ensures var root := Referring(OPEN, "properties");
            && (hops > 0 ==> Accepts(Definitions(root), root, v, hops))
            && !Accepts(Definitions(Normalize(root)), Normalize(root), v, hops)
  {
    OpenIsRewritten();
    LostReferenceFails(OPEN, "properties", v, hops);
  }
}
