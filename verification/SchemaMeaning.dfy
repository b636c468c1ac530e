/** What a schema says about a value, with no budget: the least solution of the schema's own equations. */
module SchemaMeaning {
  import opened EqualityKey
  import opened JsonPointer
  import opened JsonValues
  import opened Prelude
  import opened Rationals

  /** The root that local references resolve in, and what a pattern matches. */
  datatype Contract = Contract(root: Node, matches: (string, string) -> bool)

  const MAX_INT64 := 0x7fff_ffff_ffff_ffff

  predicate Has(schema: Node, keyword: string, value: Json) {
    keyword in schema && schema[keyword] == value
  }

  predicate ConstHolds(schema: Node, value: Json) {
    "const" in schema ==> JsonValuesEqual(schema["const"], value)
  }

  predicate EnumHolds(schema: Node, value: Json) {
    "enum" in schema ==>
      && schema["enum"].JArray?
      && exists i | 0 <= i < |schema["enum"].items| :: JsonValuesEqual(schema["enum"].items[i], value)
  }

  predicate MatchesSingleType(name: string, value: Json) {
    match name
    case "null" => value.JNull?
    case "object" => value.JObject?
    case "array" => value.JArray?
    case "string" => value.JString?
    case "boolean" => value.JBool?
    case "number" => value.JNumber?
    case "integer" => value.JNumber? && value.n.rational.Some? && value.n.rational.value.IsInteger()
    case _ => false
  }

  predicate TypeHolds(schema: Node, value: Json) {
    "type" in schema ==>
      match schema["type"]
      case JString(name) => MatchesSingleType(name, value)
      case JArray(names) => exists i | 0 <= i < |names| :: names[i].JString? && MatchesSingleType(names[i].s, value)
      case _ => false
  }

  function NonNegativeInteger(raw: Json): Option<nat> {
    if raw.JNumber? && raw.n.rational.Some? && 0 <= raw.n.rational.value.num <= MAX_INT64
        && raw.n.rational.value.den == 1
    then Some(raw.n.rational.value.num) else None
  }

  predicate CountHolds(schema: Node, count: nat, minimum: string, maximum: string) {
    && (minimum in schema ==>
          var bound := NonNegativeInteger(schema[minimum]); bound.Some? && bound.value <= count)
    && (maximum in schema ==>
          var bound := NonNegativeInteger(schema[maximum]); bound.Some? && count <= bound.value)
  }

  /** The bound that a numeric keyword sets, if its value is a number at all. */
  function Bound(schema: Node, keyword: string): Option<Number> {
    if keyword in schema && schema[keyword].JNumber? then Some(schema[keyword].n) else None
  }

  predicate NumberHolds(schema: Node, number: Number) {
    && number.rational.Some?
    && var value := number.rational.value;
       && (Bound(schema, "minimum").Some? ==>
             var limit := Bound(schema, "minimum").value.rational; limit.Some? && !value.Below(limit.value))
       && (Bound(schema, "maximum").Some? ==>
             var limit := Bound(schema, "maximum").value.rational; limit.Some? && !limit.value.Below(value))
       && (Bound(schema, "exclusiveMinimum").Some? ==>
             var limit := Bound(schema, "exclusiveMinimum").value.rational; limit.Some? && limit.value.Below(value))
       && (Bound(schema, "exclusiveMaximum").Some? ==>
             var limit := Bound(schema, "exclusiveMaximum").value.rational; limit.Some? && value.Below(limit.value))
       && (Bound(schema, "multipleOf").Some? ==>
             var factor := Bound(schema, "multipleOf").value.rational;
             factor.Some? && factor.value.num > 0 && value.IsMultipleOf(factor.value))
  }

  /** utf8.RuneCountInString on the bytes of valid UTF-8: continuation bytes do not start a rune. */
  function RuneCount(s: string): nat {
    if s == [] then 0 else (if 0x80 <= s[0] as int < 0xC0 then 0 else 1) + RuneCount(s[1..])
  }

  predicate StringHolds(contract: Contract, schema: Node, s: string) {
    && CountHolds(schema, RuneCount(s), "minLength", "maxLength")
    && ("pattern" in schema && schema["pattern"].JString? ==> contract.matches(schema["pattern"].s, s))
  }

  function Properties(schema: Node): Node {
    if "properties" in schema && schema["properties"].JObject? then schema["properties"].fields else map[]
  }

  predicate RequiredHolds(schema: Node, fields: Node) {
    "required" in schema && schema["required"].JArray? ==>
      forall i | 0 <= i < |schema["required"].items| ::
        schema["required"].items[i].JString? && schema["required"].items[i].s in fields
  }

  function Members(schema: Node, keyword: string): seq<Json> {
    if keyword in schema && schema[keyword].JArray? then schema[keyword].items else []
  }

  function Reference(contract: Contract, schema: Node): Option<Node>
    requires "$ref" in schema && schema["$ref"].JString?
  {
    Resolve(contract.root, schema["$ref"].s)
  }

  predicate HasReference(schema: Node) {
    "$ref" in schema && schema["$ref"].JString?
  }

  datatype Verdict = Accept | Reject | Limit

  /** How subschemas are decided; Limit leaves a subschema undecided. */
  type Decision = (Node, Json) -> Verdict

  /** A child that is not a schema object is an error of the schema, hence a rejection. */
  function Child(d: Decision, child: Json, value: Json): Verdict {
    if child.JObject? then d(child.fields, value) else Reject
  }

  function ReferenceVerdict(d: Decision, contract: Contract, schema: Node, value: Json): Verdict {
    if !HasReference(schema) then Accept
    else
      var target := Reference(contract, schema);
      if target.Some? then d(target.value, value) else Reject
  }

  predicate IsList(schema: Node, keyword: string) {
    keyword in schema ==> schema[keyword].JArray?
  }

  ghost predicate AllOfAccepts(d: Decision, schema: Node, value: Json) {
    && IsList(schema, "allOf")
    && var children := Members(schema, "allOf");
       forall i | 0 <= i < |children| :: Child(d, children[i], value) == Accept
  }

  ghost predicate AllOfRejects(d: Decision, schema: Node, value: Json) {
    || !IsList(schema, "allOf")
    || var children := Members(schema, "allOf");
       exists i | 0 <= i < |children| :: Child(d, children[i], value) == Reject
  }

  /** The first accepting child ends the scan, so a malformed child counts only before it. */
  ghost predicate AnyOfAccepts(d: Decision, schema: Node, value: Json) {
    "anyOf" in schema ==>
      && IsList(schema, "anyOf")
      && var children := Members(schema, "anyOf");
         exists i | 0 <= i < |children| ::
           Child(d, children[i], value) == Accept && forall j | 0 <= j < i :: children[j].JObject?
  }

  ghost predicate AnyOfRejects(d: Decision, schema: Node, value: Json) {
    && "anyOf" in schema
    && (
         || !IsList(schema, "anyOf")
         || var children := Members(schema, "anyOf");
            || (forall j | 0 <= j < |children| :: Child(d, children[j], value) == Reject)
            || (exists i | 0 <= i < |children| ::
                  !children[i].JObject? && forall j | 0 <= j < i :: Child(d, children[j], value) == Reject)
       )
  }

  ghost predicate OneOfAccepts(d: Decision, schema: Node, value: Json) {
    "oneOf" in schema ==>
      && IsList(schema, "oneOf")
      && var children := Members(schema, "oneOf");
         && (forall j | 0 <= j < |children| :: children[j].JObject?)
         && exists i | 0 <= i < |children| ::
              && Child(d, children[i], value) == Accept
              && forall j | 0 <= j < |children| && j != i :: Child(d, children[j], value) == Reject
  }

  ghost predicate OneOfRejects(d: Decision, schema: Node, value: Json) {
    && "oneOf" in schema
    && (
         || !IsList(schema, "oneOf")
         || var children := Members(schema, "oneOf");
            || (exists j | 0 <= j < |children| :: !children[j].JObject?)
            || (forall j | 0 <= j < |children| :: Child(d, children[j], value) == Reject)
            || (exists i, j | 0 <= i < j < |children| ::
                  Child(d, children[i], value) == Accept && Child(d, children[j], value) == Accept)
       )
  }

  function NotVerdict(d: Decision, schema: Node, value: Json): Verdict {
    if "not" !in schema then Accept
    else if !schema["not"].JObject? then Reject
    else match d(schema["not"].fields, value)
         case Accept => Reject
         case Reject => Accept
         case Limit => Limit
  }

  function FieldVerdict(d: Decision, schema: Node, name: string, value: Json): Verdict {
    var properties := Properties(schema);
    if name in properties then Child(d, properties[name], value)
    else if Has(schema, "additionalProperties", JBool(false)) then Reject
    else Accept
  }

  predicate UniqueHolds(schema: Node, distinct: bool) {
    Has(schema, "uniqueItems", JBool(true)) ==> distinct
  }

  ghost predicate ObjectAccepts(d: Decision, schema: Node, fields: Node) {
    && RequiredHolds(schema, fields)
    && (forall name | name in fields :: FieldVerdict(d, schema, name, fields[name]) == Accept)
    && CountHolds(schema, |fields|, "minProperties", "maxProperties")
  }

  ghost predicate ObjectRejects(d: Decision, schema: Node, fields: Node) {
    || !RequiredHolds(schema, fields)
    || (exists name | name in fields :: FieldVerdict(d, schema, name, fields[name]) == Reject)
    || !CountHolds(schema, |fields|, "minProperties", "maxProperties")
  }

  ghost predicate ArrayAccepts(d: Decision, schema: Node, items: seq<Json>) {
    && CountHolds(schema, |items|, "minItems", "maxItems")
    && UniqueHolds(schema, DistinctValues(items))
    && ("items" in schema ==>
          && schema["items"].JObject?
          && forall i | 0 <= i < |items| :: d(schema["items"].fields, items[i]) == Accept)
  }

  ghost predicate ArrayRejects(d: Decision, schema: Node, items: seq<Json>) {
    || !CountHolds(schema, |items|, "minItems", "maxItems")
    || !UniqueHolds(schema, DistinctValues(items))
    || ("items" in schema
        && (|| !schema["items"].JObject?
            || exists i | 0 <= i < |items| :: d(schema["items"].fields, items[i]) == Reject))
  }

  ghost predicate KindAccepts(d: Decision, contract: Contract, schema: Node, value: Json) {
    match value
    case JObject(fields) => ObjectAccepts(d, schema, fields)
    case JArray(items) => ArrayAccepts(d, schema, items)
    case JString(s) => StringHolds(contract, schema, s)
    case JNumber(n) => NumberHolds(schema, n)
    case _ => true
  }

  ghost predicate KindRejects(d: Decision, contract: Contract, schema: Node, value: Json) {
    match value
    case JObject(fields) => ObjectRejects(d, schema, fields)
    case JArray(items) => ArrayRejects(d, schema, items)
    case JString(s) => !StringHolds(contract, schema, s)
    case JNumber(n) => !NumberHolds(schema, n)
    case _ => false
  }

  ghost predicate ComposedAccepts(d: Decision, schema: Node, value: Json) {
    && AllOfAccepts(d, schema, value)
    && AnyOfAccepts(d, schema, value)
    && OneOfAccepts(d, schema, value)
    && NotVerdict(d, schema, value) == Accept
  }

  ghost predicate ComposedRejects(d: Decision, schema: Node, value: Json) {
    || AllOfRejects(d, schema, value)
    || AnyOfRejects(d, schema, value)
    || OneOfRejects(d, schema, value)
    || NotVerdict(d, schema, value) == Reject
  }

  ghost predicate StepAccepts(d: Decision, contract: Contract, schema: Node, value: Json) {
    && ReferenceVerdict(d, contract, schema, value) == Accept
    && ConstHolds(schema, value)
    && EnumHolds(schema, value)
    && ComposedAccepts(d, schema, value)
    && TypeHolds(schema, value)
    && KindAccepts(d, contract, schema, value)
  }

  ghost predicate StepRejects(d: Decision, contract: Contract, schema: Node, value: Json) {
    || ReferenceVerdict(d, contract, schema, value) == Reject
    || !ConstHolds(schema, value)
    || !EnumHolds(schema, value)
    || ComposedRejects(d, schema, value)
    || !TypeHolds(schema, value)
    || KindRejects(d, contract, schema, value)
  }

  /** A step cannot both accept and reject: each keyword's two readings exclude each other. */
  lemma StepIsConsistent(d: Decision, contract: Contract, schema: Node, value: Json)
    ensures !(StepAccepts(d, contract, schema, value) && StepRejects(d, contract, schema, value))
  {
  }

  ghost function StepVerdict(d: Decision, contract: Contract, schema: Node, value: Json): Verdict {
    if StepAccepts(d, contract, schema, value) then Accept
    else if StepRejects(d, contract, schema, value) then Reject
    else Limit
  }

  /** The verdict of schema on value when subschemas may nest n deep. */
  ghost function Decide(n: nat, contract: Contract): Decision {
    if n == 0 then (schema, value) => Limit else Refine(Decide(n - 1, contract), contract)
  }

  /** One level of evaluation above a decision of the subschemas. */
  ghost function Refine(d: Decision, contract: Contract): Decision {
    (schema, value) => StepVerdict(d, contract, schema, value)
  }

  lemma StepDecides(n: nat, contract: Contract, schema: Node, value: Json)
    ensures StepAccepts(Decide(n, contract), contract, schema, value) ==>
              Decide(n + 1, contract)(schema, value) == Accept
    ensures StepRejects(Decide(n, contract), contract, schema, value) ==>
              Decide(n + 1, contract)(schema, value) == Reject
  {
    StepIsConsistent(Decide(n, contract), contract, schema, value);
  }

  ghost predicate Extends(d: Decision, e: Decision) {
    forall schema, value :: d(schema, value) != Limit ==> e(schema, value) == d(schema, value)
  }

  lemma AllOfIsMonotone(d: Decision, e: Decision, schema: Node, value: Json)
    requires Extends(d, e)
    ensures AllOfAccepts(d, schema, value) ==> AllOfAccepts(e, schema, value)
    ensures AllOfRejects(d, schema, value) ==> AllOfRejects(e, schema, value)
  {
  }

  lemma NotIsMonotone(d: Decision, e: Decision, schema: Node, value: Json)
    requires Extends(d, e)
    ensures NotVerdict(d, schema, value) != Limit ==> NotVerdict(e, schema, value) == NotVerdict(d, schema, value)
  {
  }

  lemma AnyOfIsMonotone(d: Decision, e: Decision, schema: Node, value: Json)
    requires Extends(d, e)
    ensures AnyOfAccepts(d, schema, value) ==> AnyOfAccepts(e, schema, value)
    ensures AnyOfRejects(d, schema, value) ==> AnyOfRejects(e, schema, value)
  {
  }

  lemma OneOfIsMonotone(d: Decision, e: Decision, schema: Node, value: Json)
    requires Extends(d, e)
    ensures OneOfAccepts(d, schema, value) ==> OneOfAccepts(e, schema, value)
    ensures OneOfRejects(d, schema, value) ==> OneOfRejects(e, schema, value)
  {
  }

  lemma KindIsMonotone(d: Decision, e: Decision, contract: Contract, schema: Node, value: Json)
    requires Extends(d, e)
    ensures KindAccepts(d, contract, schema, value) ==> KindAccepts(e, contract, schema, value)
    ensures KindRejects(d, contract, schema, value) ==> KindRejects(e, contract, schema, value)
  {
  }

  lemma ComposedIsMonotone(d: Decision, e: Decision, schema: Node, value: Json)
    requires Extends(d, e)
    ensures ComposedAccepts(d, schema, value) ==> ComposedAccepts(e, schema, value)
    ensures ComposedRejects(d, schema, value) ==> ComposedRejects(e, schema, value)
  {
    AllOfIsMonotone(d, e, schema, value);
    AnyOfIsMonotone(d, e, schema, value);
    OneOfIsMonotone(d, e, schema, value);
    NotIsMonotone(d, e, schema, value);
  }

  lemma StepFollows(d: Decision, e: Decision, contract: Contract, schema: Node, value: Json)
    requires ReferenceVerdict(d, contract, schema, value) != Limit ==>
               ReferenceVerdict(e, contract, schema, value) == ReferenceVerdict(d, contract, schema, value)
    requires ComposedAccepts(d, schema, value) ==> ComposedAccepts(e, schema, value)
    requires ComposedRejects(d, schema, value) ==> ComposedRejects(e, schema, value)
    requires KindAccepts(d, contract, schema, value) ==> KindAccepts(e, contract, schema, value)
    requires KindRejects(d, contract, schema, value) ==> KindRejects(e, contract, schema, value)
    ensures StepAccepts(d, contract, schema, value) ==> StepAccepts(e, contract, schema, value)
    ensures StepRejects(d, contract, schema, value) ==> StepRejects(e, contract, schema, value)
  {
  }

  /** Deciding more subschemas never changes a verdict already reached. */
  lemma StepIsMonotone(d: Decision, e: Decision, contract: Contract, schema: Node, value: Json)
    requires Extends(d, e)
    requires StepVerdict(d, contract, schema, value) != Limit
    ensures StepVerdict(e, contract, schema, value) == StepVerdict(d, contract, schema, value)
  {
    assert StepVerdict(d, contract, schema, value) == Reject ==> StepRejects(d, contract, schema, value);
    ComposedIsMonotone(d, e, schema, value);
    KindIsMonotone(d, e, contract, schema, value);
    StepFollows(d, e, contract, schema, value);
    StepIsConsistent(e, contract, schema, value);
  }

  lemma RefinementIsMonotone(d: Decision, e: Decision, contract: Contract)
    requires Extends(d, e)
    ensures Extends(Refine(d, contract), Refine(e, contract))
  {
    forall schema, value | Refine(d, contract)(schema, value) != Limit
      ensures Refine(e, contract)(schema, value) == Refine(d, contract)(schema, value)
    {
      StepIsMonotone(d, e, contract, schema, value);
    }
  }

  lemma {:induction false} DeeperDecidesMore(n: nat, contract: Contract)
    ensures Extends(Decide(n, contract), Decide(n + 1, contract))
  {
    if n > 0 {
      DeeperDecidesMore(n - 1, contract);
      DecisionsAreRefined(n - 1, contract);
      DecisionsAreRefined(n, contract);
      Refinements(Decide(n - 1, contract), Decide(n, contract), Decide(n, contract), Decide(n + 1, contract), contract);
    }
  }

  lemma Refinements(d: Decision, e: Decision, refined: Decision, other: Decision, contract: Contract)
    requires Extends(d, e) && refined == Refine(d, contract) && other == Refine(e, contract)
    ensures Extends(refined, other)
  {
    RefinementIsMonotone(d, e, contract);
  }

  lemma DecisionsAreRefined(n: nat, contract: Contract)
    ensures Decide(n + 1, contract) == Refine(Decide(n, contract), contract)
  {
  }

  lemma {:induction false} VerdictStays(m: nat, n: nat, contract: Contract, schema: Node, value: Json)
    requires m <= n && Decide(m, contract)(schema, value) != Limit
    ensures Decide(n, contract)(schema, value) == Decide(m, contract)(schema, value)
    decreases n - m
  {
    if m < n {
      DeeperDecidesMore(m, contract);
      VerdictStays(m + 1, n, contract, schema, value);
    }
  }

  /** The plain meaning of a schema: what it decides at some depth, and hence at every greater one. */
  ghost predicate Means(contract: Contract, schema: Node, value: Json, verdict: Verdict) {
    verdict != Limit && exists n: nat :: Decide(n, contract)(schema, value) == verdict
  }

  /** The meaning is unique, whatever depth each verdict was found at. */
  lemma MeaningIsUnique(contract: Contract, schema: Node, value: Json, first: Verdict, second: Verdict)
    requires Means(contract, schema, value, first) && Means(contract, schema, value, second)
    ensures first == second
  {
    var m: nat :| Decide(m, contract)(schema, value) == first;
    var n: nat :| Decide(n, contract)(schema, value) == second;
    var top := if m < n then n else m;
    VerdictStays(m, top, contract, schema, value);
    VerdictStays(n, top, contract, schema, value);
  }

  /** (inner, part) is a subschema applied to a part of value, one level below schema. */
  ghost predicate IsChild(contract: Contract, schema: Node, value: Json, inner: Node, part: Json) {
    || (HasReference(schema) && Reference(contract, schema) == Some(inner) && part == value)
    || (part == value && (|| JObject(inner) in Members(schema, "allOf")
                          || JObject(inner) in Members(schema, "anyOf")
                          || JObject(inner) in Members(schema, "oneOf")
                          || Has(schema, "not", JObject(inner))))
    || (value.JObject? && exists name :: IsFieldChild(schema, value.fields, name, inner, part))
    || (value.JArray? && Has(schema, "items", JObject(inner)) && part in value.items)
  }

  ghost predicate IsFieldChild(schema: Node, fields: Node, name: string, inner: Node, part: Json) {
    name in fields && fields[name] == part && Has(Properties(schema), name, JObject(inner))
  }

  /** Some chain of n subschemas hangs below (schema, value). */
  ghost predicate Nests(n: nat, contract: Contract, schema: Node, value: Json) {
    n == 0 || exists inner, part :: IsChild(contract, schema, value, inner, part) && Nests(n - 1, contract, inner, part)
  }
}
