/** The strict JSON Schema subset validator: its two passes, and what they accept. */
module JsonSchema {
  import opened Json
  import Ordering

  /** What a pass ends in: no complaint, a validation error, or another Python exception. */
  datatype Check = Pass | Invalid | Crash

  function Then(a: Check, b: Check): Check {
    if a.Pass? then b else a
  }

  function Require(ok: bool): Check {
    if ok then Pass else Invalid
  }

  /** The regular-expression engine. */
  datatype Regex = Regex(compiles: string -> bool, search: (string, string) -> bool)

  const SUPPORTED_KEYWORDS: set<string> := {
    "type", "enum", "const", "properties", "required", "additionalProperties", "items", "minItems", "maxItems",
    "minLength", "maxLength", "pattern", "minimum", "maximum", "description", "title"}
  const SUPPORTED_TYPES: set<string> := {"object", "array", "string", "null", "boolean", "integer", "number"}

  type Schema = s: Json | s.Obj? witness Obj(map[])

  /** `schema.get(key)`: an absent key and a null are both None. */
  function Get(s: Schema, key: string): Json {
    if key in s.fields then s.fields[key] else Null
  }

  function Listed(v: Json): seq<Json> {
    if v.Arr? then v.items else [v]
  }

  // ---- the definition pass -------------------------------------------------

  predicate AllStrings(xs: seq<Json>) {
    forall i | 0 <= i < |xs| :: xs[i].Str?
  }

  function CheckType(s: Schema): Check {
    var raw := Get(s, "type");
    if raw.Null? then Pass
    else
      var types := Listed(raw);
      if types == [] || !AllStrings(types) then Invalid
      else Require(forall i | 0 <= i < |types| :: types[i].s in SUPPORTED_TYPES)
  }

  function CheckRequired(s: Schema): Check {
    var raw := Get(s, "required");
    if raw.Null? then Pass else Require(raw.Arr? && AllStrings(raw.items))
  }

  /** minItems, maxItems, minLength, maxLength: a non-negative int, and a bool is not one. */
  function CheckSize(s: Schema, key: string): Check {
    var raw := Get(s, key);
    if raw.Null? then Pass else Require(raw.Int? && raw.i >= 0)
  }

  function CheckBound(s: Schema, key: string): Check {
    var raw := Get(s, key);
    if raw.Null? then Pass else Require(raw.Int? || raw.Float?)
  }

  /** `schema[lo] > schema[hi]` when both keys are there; comparing a null raises TypeError. */
  function CheckOrder(s: Schema, lo: string, hi: string): Check {
    if lo in s.fields && hi in s.fields then
      var a, b := s.fields[lo], s.fields[hi];
      if !IsNumeric(a) || !IsNumeric(b) then Crash else Require(NumericValue(a) <= NumericValue(b))
    else Pass
  }

  function CheckPattern(s: Schema, re: Regex): Check {
    var raw := Get(s, "pattern");
    if raw.Null? then Pass else Require(raw.Str? && re.compiles(raw.s))
  }

  /** The checks ahead of the first nested schema. */
  function OpeningChecks(s: Schema): Check {
    Then(Require(s.fields.Keys <= SUPPORTED_KEYWORDS),
    Then(CheckType(s),
         Require(Get(s, "enum").Null? || Get(s, "enum").Arr?)))
  }

  /** The checks behind the last one. */
  function ClosingChecks(s: Schema, re: Regex): Check {
    Then(CheckSize(s, "minItems"),
    Then(CheckSize(s, "maxItems"),
    Then(CheckSize(s, "minLength"),
    Then(CheckSize(s, "maxLength"),
    Then(CheckOrder(s, "minItems", "maxItems"),
    Then(CheckOrder(s, "minLength", "maxLength"),
    Then(CheckPattern(s, re),
    Then(CheckBound(s, "minimum"),
    Then(CheckBound(s, "maximum"),
         CheckOrder(s, "minimum", "maximum"))))))))))
  }

  ghost function Definition(s: Schema, re: Regex): Check
    decreases s, 2, 0
  {
    Then(OpeningChecks(s),
    Then(PropertiesCheck(s, re),
    Then(CheckRequired(s),
    Then(AdditionalCheck(s, re),
    Then(ItemsCheck(s, re),
         ClosingChecks(s, re))))))
  }

  ghost function PropertiesCheck(s: Schema, re: Regex): Check
    decreases s, 1, 0
  {
    var properties := Get(s, "properties");
    if properties.Null? then Pass
    else if !properties.Obj? then Invalid
    else DefinitionChildren(s, Ordering.Sorted(properties.fields.Keys), re)
  }

  ghost function AdditionalCheck(s: Schema, re: Regex): Check
    decreases s, 1, 0
  {
    var additional := Get(s, "additionalProperties");
    if additional.Null? || additional.Bool? then Pass
    else if !additional.Obj? then Invalid
    else Definition(additional, re)
  }

  ghost function ItemsCheck(s: Schema, re: Regex): Check
    decreases s, 1, 0
  {
    var items := Get(s, "items");
    if items.Null? then Pass else if !items.Obj? then Invalid else Definition(items, re)
  }

  /** The entries of `properties`, key by key. */
  ghost function DefinitionChildren(s: Schema, keys: seq<string>, re: Regex): Check
    requires "properties" in s.fields && s.fields["properties"].Obj?
    decreases s, 0, |keys|
  {
    if keys == [] then Pass
    else
      var props := s.fields["properties"].fields;
      Then(if keys[0] in props && props[keys[0]].Obj? then Definition(props[keys[0]], re) else Invalid,
           DefinitionChildren(s, keys[1..], re))
  }

  // ---- the value pass ------------------------------------------------------

  predicate IsOfType(v: Json, t: string) {
    match v
    case Obj(_) => t == "object"
    case Arr(_) => t == "array"
    case Str(_) => t == "string"
    case Null => t == "null"
    case Bool(_) => t == "boolean"
    case Int(_) => t == "integer" || t == "number"
    case Float(_) => t == "number"
  }

  /** `any(_matches_type(value, t) ...)`, where an unknown type is a KeyError. */
  function MatchesSome(v: Json, types: seq<Json>): Check {
    if types == [] then Invalid
    else if !types[0].Str? then MatchesSome(v, types[1..])
    else if types[0].s !in SUPPORTED_TYPES then Crash
    else if IsOfType(v, types[0].s) then Pass
    else MatchesSome(v, types[1..])
  }

  predicate NoStrings(xs: seq<Json>) {
    forall i | 0 <= i < |xs| :: !xs[i].Str?
  }

  function ValueType(v: Json, s: Schema): Check {
    var types := Listed(Get(s, "type"));
    if NoStrings(types) then Pass else MatchesSome(v, types)
  }

  predicate Among(v: Json, xs: seq<Json>) {
    exists i | 0 <= i < |xs| :: PyEq(v, xs[i])
  }

  function ValueText(v: Json, s: Schema, re: Regex): Check {
    if !v.Str? then Pass
    else
      var lo, hi, pattern := Get(s, "minLength"), Get(s, "maxLength"), Get(s, "pattern");
      Then(Require(!(lo.Int? && |v.s| < lo.i)),
      Then(Require(!(hi.Int? && |v.s| > hi.i)),
           if !pattern.Str? then Pass else if !re.compiles(pattern.s) then Crash else Require(re.search(pattern.s, v.s))))
  }

  function ValueNumber(v: Json, s: Schema): Check {
    if !v.Int? && !v.Float? then Pass
    else
      var lo, hi := Get(s, "minimum"), Get(s, "maximum");
      Then(Require(!(IsNumeric(lo) && NumericValue(v) < NumericValue(lo))),
           Require(!(IsNumeric(hi) && NumericValue(v) > NumericValue(hi))))
  }

  /** What `properties`, then `additionalProperties`, say about one key: a schema, nothing, or refusal. */
  datatype Verdict = Refused | Unchecked | Against(schema: Schema)

  function ForKey(s: Schema, key: string): Verdict {
    var properties, additional := Get(s, "properties"), Get(s, "additionalProperties");
    if properties.Obj? && key in properties.fields && !properties.fields[key].Null? then
      if properties.fields[key].Obj? then Against(properties.fields[key]) else Unchecked
    else if additional == Bool(false) then Refused
    else if additional.Obj? then Against(additional)
    else Unchecked
  }

  /** The checks ahead of `required`. */
  function ScalarChecks(v: Json, s: Schema, re: Regex): Check {
    var enum := Get(s, "enum");
    Then(ValueType(v, s),
    Then(if enum.Arr? then Require(Among(v, enum.items)) else Pass,
    Then(if "const" in s.fields then Require(PyEq(v, s.fields["const"])) else Pass,
    Then(ValueText(v, s, re),
         ValueNumber(v, s)))))
  }

  ghost function Value(v: Json, s: Schema, re: Regex): Check
    decreases v, 1, 0
  {
    Then(ScalarChecks(v, s, re),
    Then(ValueRequired(v, s),
    Then(if v.Obj? then (Ordering.SortedIsSorted(v.fields.Keys); ValueFields(v, s, Ordering.Sorted(v.fields.Keys), re)) else Pass,
    Then(ValueCount(v, s),
         if v.Arr? && Get(s, "items").Obj? then ValueItems(v, Get(s, "items"), 0, re) else Pass))))
  }

  function ValueRequired(v: Json, s: Schema): Check {
    var required := Get(s, "required");
    if !v.Obj? || !required.Arr? then Pass
    else Require(forall i | 0 <= i < |required.items| :: required.items[i].Str? && required.items[i].s in v.fields)
  }

  function ValueCount(v: Json, s: Schema): Check {
    if !v.Arr? then Pass
    else
      var lo, hi := Get(s, "minItems"), Get(s, "maxItems");
      Then(Require(!(lo.Int? && |v.items| < lo.i)), Require(!(hi.Int? && |v.items| > hi.i)))
  }

  ghost function ValueFields(v: Json, s: Schema, keys: seq<string>, re: Regex): Check
    requires v.Obj? && forall i | 0 <= i < |keys| :: keys[i] in v.fields
    decreases v, 0, |keys|
  {
    if keys == [] then Pass
    else
      var against := ForKey(s, keys[0]);
      Then(match against
           case Refused => Invalid
           case Unchecked => Pass
           case Against(child) => Value(v.fields[keys[0]], child, re),
           ValueFields(v, s, keys[1..], re))
  }

  ghost function ValueItems(v: Json, items: Schema, from: nat, re: Regex): Check
    requires v.Arr? && from <= |v.items|
    decreases v, 0, |v.items| - from
  {
    if from == |v.items| then Pass
    else Then(Value(v.items[from], items, re), ValueItems(v, items, from + 1, re))
  }

  /** `validate_json_schema`. */
  ghost function Validate(v: Json, s: Schema, re: Regex): Check {
    Then(Definition(s, re), Value(v, s, re))
  }

  // ---- what a supported schema is ------------------------------------------

  /** Both bounds, when both are there, are numbers in order. */
  predicate Ordered(s: Schema, lo: string, hi: string) {
    lo in s.fields && hi in s.fields ==>
      && IsNumeric(s.fields[lo]) && IsNumeric(s.fields[hi])
      && NumericValue(s.fields[lo]) <= NumericValue(s.fields[hi])
  }

  predicate SizeOrNull(v: Json) { v.Null? || (v.Int? && v.i >= 0) }

  predicate BoundOrNull(v: Json) { v.Null? || v.Int? || v.Float? }

  predicate TypeArgument(v: Json) {
    v.Null? || (Listed(v) != [] && forall i | 0 <= i < |Listed(v)| :: Listed(v)[i].Str? && Listed(v)[i].s in SUPPORTED_TYPES)
  }

  /** The arguments that hold no schemas. */
  predicate PlainArguments(s: Schema, re: Regex) {
    && s.fields.Keys <= SUPPORTED_KEYWORDS
    && TypeArgument(Get(s, "type"))
    && (Get(s, "enum").Null? || Get(s, "enum").Arr?)
    && (Get(s, "required").Null? || (Get(s, "required").Arr? && AllStrings(Get(s, "required").items)))
    && SizeOrNull(Get(s, "minItems")) && SizeOrNull(Get(s, "maxItems"))
    && SizeOrNull(Get(s, "minLength")) && SizeOrNull(Get(s, "maxLength"))
    && (Get(s, "pattern").Null? || (Get(s, "pattern").Str? && re.compiles(Get(s, "pattern").s)))
    && BoundOrNull(Get(s, "minimum")) && BoundOrNull(Get(s, "maximum"))
    && Ordered(s, "minItems", "maxItems") && Ordered(s, "minLength", "maxLength") && Ordered(s, "minimum", "maximum")
  }

  /** A schema inside the subset, at every depth. */
  ghost predicate Supported(s: Schema, re: Regex)
    decreases s
  {
    var properties, additional, items := Get(s, "properties"), Get(s, "additionalProperties"), Get(s, "items");
    && PlainArguments(s, re)
    && (properties.Null? ||
        (properties.Obj? && forall k | k in properties.fields :: properties.fields[k].Obj? && Supported(properties.fields[k], re)))
    && (additional.Null? || additional.Bool? || (additional.Obj? && Supported(additional, re)))
    && (items.Null? || (items.Obj? && Supported(items, re)))
  }

  // ---- what satisfying one means -------------------------------------------

  /** The assertions of one schema about one value that do not look inside it. */
  predicate OwnAssertions(v: Json, s: Schema, re: Regex) {
    && (Get(s, "type").Null? || exists i | 0 <= i < |Listed(Get(s, "type"))| ::
          Listed(Get(s, "type"))[i].Str? && IsOfType(v, Listed(Get(s, "type"))[i].s))
    && (Get(s, "enum").Arr? ==> Among(v, Get(s, "enum").items))
    && ("const" in s.fields ==> PyEq(v, s.fields["const"]))
    && (v.Str? && Get(s, "minLength").Int? ==> |v.s| >= Get(s, "minLength").i)
    && (v.Str? && Get(s, "maxLength").Int? ==> |v.s| <= Get(s, "maxLength").i)
    && (v.Str? && Get(s, "pattern").Str? ==> re.search(Get(s, "pattern").s, v.s))
    && ((v.Int? || v.Float?) && IsNumeric(Get(s, "minimum")) ==> NumericValue(v) >= NumericValue(Get(s, "minimum")))
    && ((v.Int? || v.Float?) && IsNumeric(Get(s, "maximum")) ==> NumericValue(v) <= NumericValue(Get(s, "maximum")))
    && (v.Arr? && Get(s, "minItems").Int? ==> |v.items| >= Get(s, "minItems").i)
    && (v.Arr? && Get(s, "maxItems").Int? ==> |v.items| <= Get(s, "maxItems").i)
    && (v.Obj? && Get(s, "required").Arr? ==>
          forall i | 0 <= i < |Get(s, "required").items| :: Get(s, "required").items[i].Str? && Get(s, "required").items[i].s in v.fields)
  }

  predicate Declared(s: Schema, key: string) {
    Get(s, "properties").Obj? && key in Get(s, "properties").fields
  }

  /** A value satisfies a schema: section 6 of JSON Schema Validation 2020-12 with Python's equality, and
      with integers that are ints. */
  ghost predicate Satisfies(v: Json, s: Schema, re: Regex)
    decreases v, 1
  {
    OwnAssertions(v, s, re)
    && (v.Obj? ==> FieldsSatisfy(v, s, re))
    && (v.Arr? && Get(s, "items").Obj? ==> ItemsSatisfy(v, Get(s, "items"), re))
  }

  /** `properties` and `additionalProperties`. */
  ghost predicate FieldsSatisfy(v: Json, s: Schema, re: Regex)
    requires v.Obj?
    decreases v, 0
  {
    && (forall k | k in v.fields && Declared(s, k) && Get(s, "properties").fields[k].Obj? ::
          Satisfies(v.fields[k], Get(s, "properties").fields[k], re))
    && (Get(s, "additionalProperties") == Bool(false) ==> forall k | k in v.fields :: Declared(s, k))
    && (Get(s, "additionalProperties").Obj? ==>
          forall k | k in v.fields && !Declared(s, k) :: Satisfies(v.fields[k], Get(s, "additionalProperties"), re))
  }

  ghost predicate ItemsSatisfy(v: Json, items: Schema, re: Regex)
    requires v.Arr?
    decreases v, 0
  {
    forall i | 0 <= i < |v.items| :: Satisfies(v.items[i], items, re)
  }

  // ---- the passes decide exactly that --------------------------------------

  /** The recursive part of the definition pass. */
  ghost function NestedChecks(s: Schema, re: Regex): Check {
    Then(PropertiesCheck(s, re), Then(AdditionalCheck(s, re), ItemsCheck(s, re)))
  }

  lemma DefinitionSplits(s: Schema, re: Regex)
    ensures Definition(s, re).Pass? <==> PlainChecks(s, re).Pass? && NestedChecks(s, re).Pass?
  {
  }

  ghost predicate NestedSupported(s: Schema, re: Regex) {
    var properties, additional, items := Get(s, "properties"), Get(s, "additionalProperties"), Get(s, "items");
    && (properties.Null? ||
        (properties.Obj? && forall k | k in properties.fields :: properties.fields[k].Obj? && Supported(properties.fields[k], re)))
    && (additional.Null? || additional.Bool? || (additional.Obj? && Supported(additional, re)))
    && (items.Null? || (items.Obj? && Supported(items, re)))
  }

  lemma SupportedSplits(s: Schema, re: Regex)
    ensures Supported(s, re) <==> PlainArguments(s, re) && NestedSupported(s, re)
  {
  }

  lemma {:induction false} NestedDecides(s: Schema, re: Regex)
    ensures NestedChecks(s, re).Pass? <==> NestedSupported(s, re)
    decreases s, 1, 0
  {
    var properties, additional, items := Get(s, "properties"), Get(s, "additionalProperties"), Get(s, "items");
    if properties.Obj? {
      Ordering.SortedIsSorted(properties.fields.Keys);
      ChildrenDecide(s, Ordering.Sorted(properties.fields.Keys), re);
    }
    if additional.Obj? { DefinitionDecides(additional, re); }
    if items.Obj? { DefinitionDecides(items, re); }
  }

  /** The definition pass accepts exactly the schemas inside the subset. */
  lemma {:induction false} DefinitionDecides(s: Schema, re: Regex)
    ensures Definition(s, re).Pass? <==> Supported(s, re)
    decreases s, 2, 0
  {
    DefinitionSplits(s, re);
    SupportedSplits(s, re);
    PlainDecides(s, re);
    NestedDecides(s, re);
  }

  lemma {:induction false} ChildrenDecide(s: Schema, keys: seq<string>, re: Regex)
    requires "properties" in s.fields && s.fields["properties"].Obj?
    ensures DefinitionChildren(s, keys, re).Pass? <==>
      forall k | k in keys :: k in s.fields["properties"].fields && s.fields["properties"].fields[k].Obj?
                              && Supported(s.fields["properties"].fields[k], re)
    decreases s, 0, |keys|
  {
    if keys != [] {
      var props := s.fields["properties"].fields;
      if keys[0] in props && props[keys[0]].Obj? { DefinitionDecides(props[keys[0]], re); }
      ChildrenDecide(s, keys[1..], re);
      assert keys == [keys[0]] + keys[1..];
    }
  }

  /** The part of the definition pass without recursion. */
  function PlainChecks(s: Schema, re: Regex): Check {
    Then(OpeningChecks(s), Then(CheckRequired(s), ClosingChecks(s, re)))
  }

  lemma PlainDecides(s: Schema, re: Regex)
    ensures PlainChecks(s, re).Pass? <==> PlainArguments(s, re)
  {
  }

  lemma {:induction false} MatchesDecides(v: Json, types: seq<Json>)
    requires forall i | 0 <= i < |types| :: types[i].Str? && types[i].s in SUPPORTED_TYPES
    ensures MatchesSome(v, types) == Require(exists i | 0 <= i < |types| :: types[i].Str? && IsOfType(v, types[i].s))
  {
    if types != [] {
      var rest := types[1..];
      MatchesDecides(v, rest);
      if i :| 0 <= i < |rest| && rest[i].Str? && IsOfType(v, rest[i].s) {
        assert types[i + 1] == rest[i];
      }
      if i :| 0 < i < |types| && types[i].Str? && IsOfType(v, types[i].s) {
        assert rest[i - 1] == types[i];
      }
    }
  }

  lemma TypeDecides(v: Json, s: Schema)
    requires TypeArgument(Get(s, "type"))
    ensures ValueType(v, s) == Require(Get(s, "type").Null? || exists i | 0 <= i < |Listed(Get(s, "type"))| ::
              Listed(Get(s, "type"))[i].Str? && IsOfType(v, Listed(Get(s, "type"))[i].s))
  {
    var types := Listed(Get(s, "type"));
    if !Get(s, "type").Null? {
      assert types[0].Str?;
      MatchesDecides(v, types);
    }
  }

  /** The checks of the value pass that do not look inside the value. */
  function OwnChecks(v: Json, s: Schema, re: Regex): Check {
    Then(ScalarChecks(v, s, re), Then(ValueRequired(v, s), ValueCount(v, s)))
  }

  lemma OwnDecides(v: Json, s: Schema, re: Regex)
    requires PlainArguments(s, re)
    ensures OwnChecks(v, s, re) == Require(OwnAssertions(v, s, re))
  {
    TypeDecides(v, s);
  }

  /** What the schema demands of one key of an object. */
  ghost predicate KeySatisfied(v: Json, s: Schema, k: string, re: Regex)
    requires v.Obj? && k in v.fields
  {
    match ForKey(s, k)
    case Refused => false
    case Unchecked => true
    case Against(child) => Satisfies(v.fields[k], child, re)
  }

  /** Key by key is the same as keyword by keyword. */
  lemma KeysOrKeywords(v: Json, s: Schema, re: Regex)
    requires Supported(s, re) && v.Obj?
    ensures (forall k | k in v.fields :: KeySatisfied(v, s, k, re)) <==> FieldsSatisfy(v, s, re)
  {
    forall k | k in v.fields
      ensures KeySatisfied(v, s, k, re) <==>
        if Declared(s, k) then Satisfies(v.fields[k], Get(s, "properties").fields[k], re)
        else Get(s, "additionalProperties") != Bool(false)
             && (Get(s, "additionalProperties").Obj? ==> Satisfies(v.fields[k], Get(s, "additionalProperties"), re))
    {
    }
  }

  lemma ObjectDecides(v: Json, s: Schema, re: Regex)
    requires Supported(s, re) && v.Obj?
    ensures InnerChecks(v, s, re) == Require(FieldsSatisfy(v, s, re))
    decreases v, 1, 0
  {
    var keys := Ordering.Sorted(v.fields.Keys);
    Ordering.SortedIsSorted(v.fields.Keys);
    FieldsDecide(v, s, keys, re);
    assert (forall i | 0 <= i < |keys| :: KeySatisfied(v, s, keys[i], re)) <==>
           forall k | k in v.fields :: KeySatisfied(v, s, k, re) by {
      assert forall k | k in v.fields :: k in keys;
    }
    KeysOrKeywords(v, s, re);
  }

  /** On a supported schema the value pass decides satisfaction and never ends in another exception: in
      particular it meets no unknown type at any depth. */
  lemma {:induction false} ValueDecides(v: Json, s: Schema, re: Regex)
    requires Supported(s, re)
    ensures Value(v, s, re) == Require(Satisfies(v, s, re))
    decreases v, 2, 0
  {
    OwnDecides(v, s, re);
    ValueSplits(v, s, re);
    if v.Obj? {
      ObjectDecides(v, s, re);
    } else if v.Arr? && Get(s, "items").Obj? {
      ItemsDecide(v, Get(s, "items"), 0, re);
    }
  }

  /** The recursive part of the value pass. */
  ghost function InnerChecks(v: Json, s: Schema, re: Regex): Check {
    if v.Obj? then (Ordering.SortedIsSorted(v.fields.Keys); ValueFields(v, s, Ordering.Sorted(v.fields.Keys), re))
    else if v.Arr? && Get(s, "items").Obj? then ValueItems(v, Get(s, "items"), 0, re)
    else Pass
  }

  lemma ValueSplits(v: Json, s: Schema, re: Regex)
    ensures OwnChecks(v, s, re).Pass? ==> Value(v, s, re) == InnerChecks(v, s, re)
    ensures OwnChecks(v, s, re).Invalid? && !InnerChecks(v, s, re).Crash? ==> Value(v, s, re).Invalid?
  {
  }

  lemma {:induction false} FieldsDecide(v: Json, s: Schema, keys: seq<string>, re: Regex)
    requires Supported(s, re) && v.Obj? && forall i | 0 <= i < |keys| :: keys[i] in v.fields
    ensures ValueFields(v, s, keys, re) == Require(forall i | 0 <= i < |keys| :: KeySatisfied(v, s, keys[i], re))
    decreases v, 0, |keys|
  {
    if keys != [] {
      var k := keys[0];
      if ForKey(s, k).Against? { ValueDecides(v.fields[k], ForKey(s, k).schema, re); }
      FieldsDecide(v, s, keys[1..], re);
      if forall i | 0 <= i < |keys[1..]| :: KeySatisfied(v, s, keys[1..][i], re) {
        forall i | 0 < i < |keys| ensures KeySatisfied(v, s, keys[i], re) { assert keys[i] == keys[1..][i - 1]; }
      } else {
        var i :| 0 <= i < |keys[1..]| && !KeySatisfied(v, s, keys[1..][i], re);
        assert keys[i + 1] == keys[1..][i];
      }
    }
  }

  lemma {:induction false} ItemsDecide(v: Json, items: Schema, from: nat, re: Regex)
    requires Supported(items, re) && v.Arr? && from <= |v.items|
    ensures ValueItems(v, items, from, re) == Require(forall i | from <= i < |v.items| :: Satisfies(v.items[i], items, re))
    decreases v, 0, |v.items| - from
  {
    if from < |v.items| {
      ValueDecides(v.items[from], items, re);
      ItemsDecide(v, items, from + 1, re);
    }
  }

  /** `validate_json_schema` accepts exactly the values that satisfy a supported schema. */
  lemma ValidateDecides(v: Json, s: Schema, re: Regex)
    ensures Validate(v, s, re).Pass? <==> Supported(s, re) && Satisfies(v, s, re)
    ensures Validate(v, s, re).Crash? ==> Definition(s, re).Crash?
  {
    DefinitionDecides(s, re);
    if Supported(s, re) {
      ValueDecides(v, s, re);
    }
  }

  // ---- where the definition pass raises something else ---------------------

  /** A null minimum or maximum whose partner is there, be it null too. */
  predicate NullPair(s: Schema, lo: string, hi: string) {
    lo in s.fields && hi in s.fields && (s.fields[lo].Null? || s.fields[hi].Null?)
  }

  predicate OwnNullPair(s: Schema) {
    NullPair(s, "minItems", "maxItems") || NullPair(s, "minLength", "maxLength") || NullPair(s, "minimum", "maximum")
  }

  /** At any depth the definition pass looks at. */
  ghost predicate HasNullPair(s: Schema)
    decreases s, 1
  {
    || OwnNullPair(s)
    || ChildHasNullPair(s)
    || (Get(s, "additionalProperties").Obj? && HasNullPair(Get(s, "additionalProperties")))
    || (Get(s, "items").Obj? && HasNullPair(Get(s, "items")))
  }

  ghost predicate ChildHasNullPair(s: Schema)
    decreases s, 0
  {
    Get(s, "properties").Obj? && exists k | k in Get(s, "properties").fields ::
      Get(s, "properties").fields[k].Obj? && HasNullPair(Get(s, "properties").fields[k])
  }

  /** Both bounds, when both are numbers, are in order. */
  predicate NumbersOrdered(s: Schema, lo: string, hi: string) {
    lo in s.fields && hi in s.fields && IsNumeric(s.fields[lo]) && IsNumeric(s.fields[hi]) ==>
      NumericValue(s.fields[lo]) <= NumericValue(s.fields[hi])
  }

  predicate LoosePlain(s: Schema, re: Regex) {
    && s.fields.Keys <= SUPPORTED_KEYWORDS
    && TypeArgument(Get(s, "type"))
    && (Get(s, "enum").Null? || Get(s, "enum").Arr?)
    && (Get(s, "required").Null? || (Get(s, "required").Arr? && AllStrings(Get(s, "required").items)))
    && SizeOrNull(Get(s, "minItems")) && SizeOrNull(Get(s, "maxItems"))
    && SizeOrNull(Get(s, "minLength")) && SizeOrNull(Get(s, "maxLength"))
    && (Get(s, "pattern").Null? || (Get(s, "pattern").Str? && re.compiles(Get(s, "pattern").s)))
    && BoundOrNull(Get(s, "minimum")) && BoundOrNull(Get(s, "maximum"))
    && NumbersOrdered(s, "minItems", "maxItems") && NumbersOrdered(s, "minLength", "maxLength")
    && NumbersOrdered(s, "minimum", "maximum")
  }

  /** Inside the subset at every depth, if a null bound counts as no bound. */
  ghost predicate LooselySupported(s: Schema, re: Regex)
    decreases s
  {
    var properties, additional, items := Get(s, "properties"), Get(s, "additionalProperties"), Get(s, "items");
    && LoosePlain(s, re)
    && (properties.Null? ||
        (properties.Obj? && forall k | k in properties.fields :: properties.fields[k].Obj? && LooselySupported(properties.fields[k], re)))
    && (additional.Null? || additional.Bool? || (additional.Obj? && LooselySupported(additional, re)))
    && (items.Null? || (items.Obj? && LooselySupported(items, re)))
  }

  lemma PlainCrashes(s: Schema, re: Regex)
    ensures !OpeningChecks(s).Crash? && !CheckRequired(s).Crash?
    ensures ClosingChecks(s, re).Crash? ==> OwnNullPair(s)
    ensures LoosePlain(s, re) ==>
      OpeningChecks(s).Pass? && CheckRequired(s).Pass? && ClosingChecks(s, re) == if OwnNullPair(s) then Crash else Pass
  {
  }

  /** What the pass ends in on a loosely supported schema. */
  ghost function CrashIf(raises: bool): Check {
    if raises then Crash else Pass
  }

  /** Without a null bound beside its partner the definition pass never ends in another exception; on a
      schema with no other fault it does so exactly when there is one, at any depth. */
  lemma {:induction false} DefinitionCrashes(s: Schema, re: Regex)
    ensures Definition(s, re).Crash? ==> HasNullPair(s)
    ensures LooselySupported(s, re) ==> Definition(s, re) == CrashIf(HasNullPair(s))
    decreases s, 2, 0
  {
    PlainCrashes(s, re);
    PropertiesCrash(s, re);
    AdditionalCrash(s, re);
    ItemsCrash(s, re);
  }

  lemma {:induction false} AdditionalCrash(s: Schema, re: Regex)
    ensures AdditionalCheck(s, re).Crash? ==> Get(s, "additionalProperties").Obj? && HasNullPair(Get(s, "additionalProperties"))
    ensures LooselySupported(s, re) ==>
      AdditionalCheck(s, re) == CrashIf(Get(s, "additionalProperties").Obj? && HasNullPair(Get(s, "additionalProperties")))
    decreases s, 1, 0
  {
    if Get(s, "additionalProperties").Obj? { DefinitionCrashes(Get(s, "additionalProperties"), re); }
  }

  lemma {:induction false} ItemsCrash(s: Schema, re: Regex)
    ensures ItemsCheck(s, re).Crash? ==> Get(s, "items").Obj? && HasNullPair(Get(s, "items"))
    ensures LooselySupported(s, re) ==> ItemsCheck(s, re) == CrashIf(Get(s, "items").Obj? && HasNullPair(Get(s, "items")))
    decreases s, 1, 0
  {
    if Get(s, "items").Obj? { DefinitionCrashes(Get(s, "items"), re); }
  }

  lemma {:induction false} PropertiesCrash(s: Schema, re: Regex)
    ensures PropertiesCheck(s, re).Crash? ==> ChildHasNullPair(s)
    ensures LooselySupported(s, re) ==> PropertiesCheck(s, re) == CrashIf(ChildHasNullPair(s))
    decreases s, 1, 0
  {
    var properties := Get(s, "properties");
    if properties.Obj? {
      Ordering.SortedIsSorted(properties.fields.Keys);
      ChildrenCrash(s, Ordering.Sorted(properties.fields.Keys), re);
    }
  }

  lemma {:induction false} ChildrenCrash(s: Schema, keys: seq<string>, re: Regex)
    requires "properties" in s.fields && s.fields["properties"].Obj?
    requires forall k | k in keys :: k in s.fields["properties"].fields
    ensures var props := s.fields["properties"].fields;
            && (DefinitionChildren(s, keys, re).Crash? ==> exists k :: k in keys && props[k].Obj? && HasNullPair(props[k]))
            && ((forall k | k in keys :: props[k].Obj? && LooselySupported(props[k], re)) ==>
                  DefinitionChildren(s, keys, re) == CrashIf(exists k :: k in keys && props[k].Obj? && HasNullPair(props[k])))
    decreases s, 0, |keys|
  {
    if keys != [] {
      var props := s.fields["properties"].fields;
      assert keys[0] in keys && keys == [keys[0]] + keys[1..];
      if props[keys[0]].Obj? { DefinitionCrashes(props[keys[0]], re); }
      ChildrenCrash(s, keys[1..], re);
    }
  }

  /** A null bound beside its partner is not ignored, as null is elsewhere: every schema with such a pair and
      no other fault is refused with a TypeError instead of being accepted. */
  lemma NullBoundRaises(v: Json, s: Schema, re: Regex)
    requires LooselySupported(s, re)
    ensures Validate(v, s, re).Crash? <==> HasNullPair(s)
    ensures Supported(s, re) <==> !HasNullPair(s)
  {
    DefinitionCrashes(s, re);
    DefinitionDecides(s, re);
    if Supported(s, re) { ValueDecides(v, s, re); }
  }

  // ---- enum and const against JSON's own equality --------------------------

  /** An enum of 1 accepts true, because Python compares them as numbers. */
  lemma EnumTakesTrueForOne(re: Regex)
    ensures Satisfies(Bool(true), Obj(map["enum" := Arr([Int(1)])]), re) && PunnedBy(Bool(true), [Int(1)])
  {
    var s: Schema := Obj(map["enum" := Arr([Int(1)])]);
    assert PyEq(Bool(true), Arr([Int(1)]).items[0]);
    assert Among(Bool(true), Get(s, "enum").items);
  }

  predicate StrictlyAmong(v: Json, xs: seq<Json>) {
    exists i | 0 <= i < |xs| :: JsonEq(v, xs[i])
  }

  /** An entry that accepts the value only by taking a boolean for a number, or the other way round. */
  predicate PunnedBy(v: Json, xs: seq<Json>) {
    Among(v, xs) && forall i | 0 <= i < |xs| && PyEq(v, xs[i]) :: BoolMeetsNumber(v, xs[i])
  }

  /** An enum accepts what JSON equality accepts, and beyond that exactly the values whose every match sets a
      boolean against a number. */
  lemma EnumAgainstJson(v: Json, xs: seq<Json>)
    ensures Among(v, xs) <==> StrictlyAmong(v, xs) || PunnedBy(v, xs)
    ensures !(StrictlyAmong(v, xs) && PunnedBy(v, xs))
  {
    forall i | 0 <= i < |xs| ensures JsonEq(v, xs[i]) <==> PyEq(v, xs[i]) && !BoolMeetsNumber(v, xs[i]) {
      JsonEqExact(v, xs[i]);
    }
  }

  /** Both readings of an entry that is true or 1, or false or 0, are listed. */
  predicate ListsBothReadings(xs: seq<Json>) {
    (StrictlyAmong(Bool(true), xs) <==> StrictlyAmong(Int(1), xs)) && (StrictlyAmong(Bool(false), xs) <==> StrictlyAmong(Int(0), xs))
  }

  /** Every reading of every entry is listed. */
  ghost predicate ListsAllReadings(xs: seq<Json>) {
    forall i, v | 0 <= i < |xs| && Reads(v, xs[i]) :: StrictlyAmong(v, xs)
  }

  /** For all values at once: an enum means what JSON equality means exactly when it lists every reading of its
      entries. */
  lemma EnumIsStrict(xs: seq<Json>)
    ensures (forall v :: Among(v, xs) <==> StrictlyAmong(v, xs)) <==> ListsAllReadings(xs)
  {
    if ListsAllReadings(xs) {
      forall v ensures Among(v, xs) <==> StrictlyAmong(v, xs) {
        EnumAgainstJson(v, xs);
        if Among(v, xs) { ReadingListed(v, xs); }
      }
    }
    if forall v :: Among(v, xs) <==> StrictlyAmong(v, xs) {
      forall i, v | 0 <= i < |xs| && Reads(v, xs[i]) ensures StrictlyAmong(v, xs) {
        ReadsEqual(v, xs[i]);
        assert Among(v, xs);
      }
    }
  }

  lemma ReadingListed(v: Json, xs: seq<Json>)
    requires ListsAllReadings(xs) && Among(v, xs)
    ensures StrictlyAmong(v, xs)
  {
    var i :| 0 <= i < |xs| && PyEq(v, xs[i]);
    var u := EqualIsReading(v, xs[i]);
    assert StrictlyAmong(u, xs);
    var j :| 0 <= j < |xs| && JsonEq(u, xs[j]);
    JsonEqTransitive(v, u, xs[j]);
  }

  /** For an enum whose arrays and objects are unambiguous that is: true comes with 1 and false with 0. */
  lemma FlatEnumIsStrict(xs: seq<Json>)
    requires forall i | 0 <= i < |xs| :: xs[i].Arr? || xs[i].Obj? ==> Unambiguous(xs[i])
    ensures (forall v :: Among(v, xs) <==> StrictlyAmong(v, xs)) <==> ListsBothReadings(xs)
  {
    if ListsBothReadings(xs) {
      forall v ensures Among(v, xs) <==> StrictlyAmong(v, xs) {
        EnumAgainstJson(v, xs);
        if PunnedBy(v, xs) { PunIsListed(v, xs); }
      }
    } else {
      var t, f, one, zero := Bool(true), Bool(false), Int(1), Int(0);
      if StrictlyAmong(t, xs) != StrictlyAmong(one, xs) {
        SwapIsPun(xs, t, one);
      } else {
        SwapIsPun(xs, f, zero);
      }
    }
  }

  lemma SwapIsPun(xs: seq<Json>, b: Json, n: Json)
    requires b.Bool? && n.Int? && PyEq(b, n) && StrictlyAmong(b, xs) != StrictlyAmong(n, xs)
    ensures exists v :: Among(v, xs) && !StrictlyAmong(v, xs)
  {
    var here, other := if StrictlyAmong(b, xs) then b else n, if StrictlyAmong(b, xs) then n else b;
    var i :| 0 <= i < |xs| && JsonEq(here, xs[i]);
    assert PyEq(other, xs[i]);
    assert Among(other, xs) && !StrictlyAmong(other, xs);
  }

  /** A boolean and the number it equals. */
  function Reading(one: bool, asBool: bool): Json {
    if asBool then Bool(one) else Int(if one then 1 else 0)
  }

  lemma PunReads(v: Json, x: Json)
    requires PyEq(v, x) && BoolMeetsNumber(v, x) && !x.Arr? && !x.Obj?
    ensures exists one :: JsonEq(v, Reading(one, v.Bool?)) && JsonEq(Reading(one, x.Bool?), x)
  {
    var one := NumericValue(v) == 1.0;
    assert JsonEq(v, Reading(one, v.Bool?)) && JsonEq(Reading(one, x.Bool?), x);
  }

  lemma OtherReadingListed(xs: seq<Json>, one: bool, here: bool, there: bool)
    requires ListsBothReadings(xs) && StrictlyAmong(Reading(one, here), xs)
    ensures StrictlyAmong(Reading(one, there), xs)
  {
  }

  lemma SameReadingListed(v: Json, one: bool, asBool: bool, xs: seq<Json>)
    requires JsonEq(v, Reading(one, asBool)) && StrictlyAmong(Reading(one, asBool), xs)
    ensures StrictlyAmong(v, xs)
  {
    var j :| 0 <= j < |xs| && JsonEq(Reading(one, asBool), xs[j]);
    assert JsonEq(v, xs[j]);
  }

  lemma PunIsListed(v: Json, xs: seq<Json>)
    requires forall i | 0 <= i < |xs| :: xs[i].Arr? || xs[i].Obj? ==> Unambiguous(xs[i])
    requires ListsBothReadings(xs) && PunnedBy(v, xs)
    ensures StrictlyAmong(v, xs)
  {
    var i :| 0 <= i < |xs| && PyEq(v, xs[i]);
    var x := xs[i];
    assert !x.Arr? && !x.Obj? by {
      if x.Arr? || x.Obj? { UnambiguousMeetsNone(v, x); }
    }
    PunReads(v, x);
    var one :| JsonEq(v, Reading(one, v.Bool?)) && JsonEq(Reading(one, x.Bool?), x);
    assert StrictlyAmong(Reading(one, x.Bool?), xs);
    OtherReadingListed(xs, one, x.Bool?, v.Bool?);
    SameReadingListed(v, one, v.Bool?, xs);
  }

  /** Enum and const of a schema, met by JSON equality. */
  predicate StrictHere(v: Json, s: Schema) {
    && (Get(s, "enum").Arr? ==> StrictlyAmong(v, Get(s, "enum").items))
    && ("const" in s.fields ==> JsonEq(v, s.fields["const"]))
  }

  /** The same at every place the value pass goes to. */
  ghost predicate Strict(v: Json, s: Schema)
    decreases v
  {
    && StrictHere(v, s)
    && (v.Obj? ==> forall k | k in v.fields && ForKey(s, k).Against? :: Strict(v.fields[k], ForKey(s, k).schema))
    && (v.Arr? && Get(s, "items").Obj? ==> forall i | 0 <= i < |v.items| :: Strict(v.items[i], Get(s, "items")))
  }

  predicate UnambiguousHere(s: Schema) {
    && (Get(s, "enum").Arr? ==> forall i | 0 <= i < |Get(s, "enum").items| :: Unambiguous(Get(s, "enum").items[i]))
    && ("const" in s.fields ==> Unambiguous(s.fields["const"]))
  }

  /** No enum or const at any depth holds a boolean, a zero or a one. */
  ghost predicate UnambiguousSchema(s: Schema)
    decreases s
  {
    var properties, additional, items := Get(s, "properties"), Get(s, "additionalProperties"), Get(s, "items");
    && UnambiguousHere(s)
    && (properties.Obj? ==> forall k | k in properties.fields && properties.fields[k].Obj? :: UnambiguousSchema(properties.fields[k]))
    && (additional.Obj? ==> UnambiguousSchema(additional))
    && (items.Obj? ==> UnambiguousSchema(items))
  }

  lemma StrictAtOnePlace(v: Json, s: Schema, re: Regex)
    requires OwnAssertions(v, s, re) && UnambiguousHere(s)
    ensures StrictHere(v, s)
  {
    if Get(s, "enum").Arr? {
      var xs := Get(s, "enum").items;
      var i :| 0 <= i < |xs| && PyEq(v, xs[i]);
      UnambiguousIsStrict(v, xs[i]);
    }
    if "const" in s.fields { UnambiguousIsStrict(v, s.fields["const"]); }
  }

  /** With such a schema every value that is accepted is accepted by JSON equality, all the way down. */
  lemma {:induction false} AcceptedStrictly(v: Json, s: Schema, re: Regex)
    requires Supported(s, re) && UnambiguousSchema(s) && Satisfies(v, s, re)
    ensures Strict(v, s)
    decreases v
  {
    StrictAtOnePlace(v, s, re);
    if v.Obj? {
      KeysOrKeywords(v, s, re);
      forall k | k in v.fields && ForKey(s, k).Against? ensures Strict(v.fields[k], ForKey(s, k).schema) {
        assert KeySatisfied(v, s, k, re);
        AcceptedStrictly(v.fields[k], ForKey(s, k).schema, re);
      }
    }
    if v.Arr? && Get(s, "items").Obj? {
      forall i | 0 <= i < |v.items| ensures Strict(v.items[i], Get(s, "items")) {
        AcceptedStrictly(v.items[i], Get(s, "items"), re);
      }
    }
  }

  // ---- what the types are --------------------------------------------------

  /** A schema that says nothing but a type, or a list of types. */
  function OnlyType(t: string): Schema {
    Obj(map["type" := Str(t)])
  }

  function OnlyTypes(ts: seq<string>): Schema {
    Obj(map["type" := Arr(seq(|ts|, i requires 0 <= i < |ts| => Str(ts[i])))])
  }

  lemma OnlyTypesDecide(v: Json, ts: seq<string>, re: Regex)
    requires ts != [] && forall i | 0 <= i < |ts| :: ts[i] in SUPPORTED_TYPES
    ensures Validate(v, OnlyTypes(ts), re).Pass? <==> exists i | 0 <= i < |ts| :: IsOfType(v, ts[i])
  {
    var s := OnlyTypes(ts);
    var listed := Listed(Get(s, "type"));
    ValidateDecides(v, s, re);
    assert forall i | 0 <= i < |ts| :: listed[i] == Str(ts[i]);
    assert PlainArguments(s, re);
    if i :| 0 <= i < |ts| && IsOfType(v, ts[i]) {
      assert listed[i].Str? && IsOfType(v, listed[i].s);
    }
  }

  lemma OnlyTypeSupported(t: string, re: Regex)
    requires t in SUPPORTED_TYPES
    ensures Supported(OnlyType(t), re)
  {
    assert Listed(Get(OnlyType(t), "type")) == [Str(t)];
    assert PlainArguments(OnlyType(t), re);
  }

  lemma OnlyTypeSatisfied(v: Json, t: string, re: Regex)
    ensures Satisfies(v, OnlyType(t), re) <==> IsOfType(v, t)
  {
    var listed := Listed(Get(OnlyType(t), "type"));
    assert listed == [Str(t)];
    if IsOfType(v, t) { assert listed[0].Str? && IsOfType(v, listed[0].s); }
  }

  lemma OnlyTypeDecides(v: Json, t: string, re: Regex)
    requires t in SUPPORTED_TYPES
    ensures Validate(v, OnlyType(t), re).Pass? <==> IsOfType(v, t)
  {
    OnlyTypeSupported(t, re);
    OnlyTypeSatisfied(v, t, re);
    ValidateDecides(v, OnlyType(t), re);
  }

  /** Validation against one of the seven types alone: "number" takes ints and floats but no boolean, "integer"
      takes ints, and each of the others one kind of value. */
  lemma TypeByKind(v: Json, t: string, re: Regex)
    requires t in SUPPORTED_TYPES
    ensures Validate(v, OnlyType(t), re).Pass? <==>
      if t == "number" then v.Int? || v.Float?
      else if t == "integer" then v.Int?
      else if t == "boolean" then v.Bool?
      else if t == "null" then v.Null?
      else if t == "string" then v.Str?
      else if t == "array" then v.Arr?
      else v.Obj?
  {
    OnlyTypeDecides(v, t, re);
  }

  /** A list of types takes the union of what its entries take. */
  lemma TypeListIsUnion(v: Json, ts: seq<string>, re: Regex)
    requires ts != [] && forall i | 0 <= i < |ts| :: ts[i] in SUPPORTED_TYPES
    ensures Validate(v, OnlyTypes(ts), re).Pass? <==>
            exists i | 0 <= i < |ts| :: Validate(v, OnlyType(ts[i]), re).Pass?
  {
    OnlyTypesDecide(v, ts, re);
    forall i | 0 <= i < |ts| ensures Validate(v, OnlyType(ts[i]), re).Pass? <==> IsOfType(v, ts[i]) {
      OnlyTypeDecides(v, ts[i], re);
    }
  }

  /** The types a value is accepted for. */
  ghost function TypesOf(v: Json, re: Regex): set<string> {
    set t | t in SUPPORTED_TYPES && Validate(v, OnlyType(t), re).Pass?
  }

  lemma TypesByKind(v: Json, re: Regex)
    ensures forall t :: t in TypesOf(v, re) <==> t in SUPPORTED_TYPES && IsOfType(v, t)
  {
    forall t ensures t in TypesOf(v, re) <==> t in SUPPORTED_TYPES && IsOfType(v, t) {
      if t in SUPPORTED_TYPES { OnlyTypeDecides(v, t, re); }
    }
  }

  /** The types of each kind of value. */
  function KindTypes(v: Json): set<string> {
    match v
    case Int(_) => {"integer", "number"}
    case Float(_) => {"number"}
    case Bool(_) => {"boolean"}
    case Null => {"null"}
    case Str(_) => {"string"}
    case Arr(_) => {"array"}
    case Obj(_) => {"object"}
  }

  lemma KindsDecide(v: Json, types: set<string>)
    requires forall t :: t in types <==> t in SUPPORTED_TYPES && IsOfType(v, t)
    ensures types == KindTypes(v)
  {
  }

  lemma KindsCount(v: Json)
    ensures |KindTypes(v)| == if v.Int? then 2 else 1
  {
    var i, n := "integer", "number";
    assert i[0] != n[0];
    if v.Int? { assert KindTypes(v) == {i} + {n}; }
  }

  /** Every value is accepted for one of the seven types, and only an int for two. */
  lemma TypesCover(v: Json, re: Regex)
    ensures TypesOf(v, re) == KindTypes(v) && |TypesOf(v, re)| == if v.Int? then 2 else 1
  {
    TypesByKind(v, re);
    var types := TypesOf(v, re);
    KindsDecide(v, types);
    KindsCount(v);
  }
}
