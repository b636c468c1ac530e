/** The schema linter, and what its verdict forces on every value the evaluator later accepts. */
module StrictSchema {
  import opened EqualityKey
  import opened FiniteSets
  import opened JsonPointer
  import opened JsonValues
  import opened Prelude
  import opened SchemaMeaning

  /** The schema under inspection and which patterns compile. */
  datatype Lint = Lint(root: Node, compiles: string -> bool)

  const MAX_DEPTH := 128

  const SUPPORTED_KEYWORDS := {
    "$comment", "$defs", "$ref", "additionalProperties", "allOf", "anyOf", "const", "definitions", "description",
    "enum", "exclusiveMaximum", "exclusiveMinimum", "items", "maxItems", "maxLength", "maxProperties", "maximum",
    "minItems", "minLength", "minProperties", "minimum", "multipleOf", "not", "oneOf", "pattern", "properties",
    "required", "title", "type", "uniqueItems"
  }

  const SUPPORTED_TYPES := {"array", "boolean", "integer", "null", "number", "object", "string"}

  predicate HasAny(node: Node, keywords: set<string>) {
    exists keyword | keyword in keywords :: keyword in node
  }

  predicate IncludesType(node: Node, target: string) {
    "type" in node
        && (node["type"] == JString(target) || (node["type"].JArray? && JString(target) in node["type"].items))
  }

  predicate DistinctNames(values: seq<Json>) {
    && (forall i | 0 <= i < |values| :: values[i].JString?)
    && (forall i, j | 0 <= i < j < |values| :: values[i] != values[j])
  }

  predicate TypeDeclared(node: Node) {
    "type" in node ==>
      match node["type"]
      case JString(name) => name in SUPPORTED_TYPES
      case JArray(names) =>
        && names != []
        && DistinctNames(names)
        && forall i | 0 <= i < |names| :: names[i].s in SUPPORTED_TYPES
      case _ => false
  }

  predicate ShortText(node: Node, keyword: string) {
    keyword in node ==> node[keyword].JString? && RuneCount(node[keyword].s) <= 4096
  }

  predicate ReferenceResolves(lint: Lint, node: Node) {
    "$ref" in node ==>
      && node["$ref"].JString?
      && ValidLocalReference(node["$ref"].s)
      && Resolve(lint.root, node["$ref"].s).Some?
  }

  predicate CountBounds(node: Node, minimum: string, maximum: string) {
    && (minimum in node ==> NonNegativeInteger(node[minimum]).Some?)
    && (maximum in node ==> NonNegativeInteger(node[maximum]).Some?)
    && (minimum in node && maximum in node ==>
          NonNegativeInteger(node[minimum]).value <= NonNegativeInteger(node[maximum]).value)
  }

  predicate NumericBound(node: Node, keyword: string) {
    keyword in node ==>
      && node[keyword].JNumber?
      && node[keyword].n.rational.Some?
      && (keyword == "multipleOf" ==> node[keyword].n.rational.value.num > 0)
  }

  ghost predicate ConstraintsAreSound(lint: Lint, node: Node) {
    && ("pattern" in node ==> node["pattern"].JString? && lint.compiles(node["pattern"].s))
    && ("enum" in node ==> node["enum"].JArray? && node["enum"].items != [] && DistinctValues(node["enum"].items))
    && ("const" in node ==> HasKey(node["const"], 0))
    && CountBounds(node, "minLength", "maxLength")
    && CountBounds(node, "minItems", "maxItems")
    && CountBounds(node, "minProperties", "maxProperties")
    && (forall keyword | keyword in {"minimum", "maximum", "exclusiveMinimum", "exclusiveMaximum", "multipleOf"} ::
          NumericBound(node, keyword))
    && ("uniqueItems" in node ==> node["uniqueItems"].JBool?)
    && (HasAny(node, {"items", "minItems", "maxItems", "uniqueItems"}) ==> IncludesType(node, "array"))
    && (HasAny(node, {"minLength", "maxLength", "pattern"}) ==> IncludesType(node, "string"))
    && (HasAny(node, {"minimum", "maximum", "exclusiveMinimum", "exclusiveMaximum", "multipleOf"}) ==>
          IncludesType(node, "number") || IncludesType(node, "integer"))
  }

  predicate ObjectKeywords(node: Node) {
    HasAny(node, {"properties", "required", "additionalProperties", "minProperties", "maxProperties"})
  }

  /** As many distinct required names as properties, and every property among them. */
  predicate RequiresEachProperty(required: seq<Json>, properties: Node) {
    && DistinctNames(required)
    && |required| == |properties|
    && forall name | name in properties :: JString(name) in required
  }

  predicate ClosedObject(node: Node) {
    && Has(node, "additionalProperties", JBool(false))
    && "required" in node && node["required"].JArray?
    && RequiresEachProperty(node["required"].items, Properties(node))
  }

  /** A root union may leave its whole object shape to its branches. */
  predicate ObjectShape(node: Node, isRoot: bool) {
    && (ObjectKeywords(node) ==> IncludesType(node, "object"))
    && (IncludesType(node, "object") ==>
          if "properties" in node && node["properties"].JObject? then ClosedObject(node)
          else isRoot && "oneOf" in node && node["oneOf"].JArray? && !ObjectKeywords(node))
  }

  ghost predicate Strict(lint: Lint, node: Node, isRoot: bool, depth: nat)
    decreases MAX_DEPTH + 1 - depth, 1
  {
    && depth <= MAX_DEPTH
    && node.Keys <= SUPPORTED_KEYWORDS
    && TypeDeclared(node)
    && ShortText(node, "title") && ShortText(node, "description") && ShortText(node, "$comment")
    && ReferenceResolves(lint, node)
    && (!isRoot ==> !HasAny(node, {"$defs", "definitions"}))
    && ConstraintsAreSound(lint, node)
    && ObjectShape(node, isRoot)
    && (IncludesType(node, "object") ==>
          forall name | name in Properties(node) :: StrictChild(lint, Properties(node)[name], depth))
    && (IncludesType(node, "array") ==> "items" in node && StrictChild(lint, node["items"], depth))
    && ("not" in node ==> StrictChild(lint, node["not"], depth))
    && (forall keyword | keyword in {"allOf", "anyOf", "oneOf"} && keyword in node ::
          && node[keyword].JArray?
          && node[keyword].items != []
          && forall i | 0 <= i < |node[keyword].items| :: StrictChild(lint, node[keyword].items[i], depth))
    && (forall keyword | keyword in {"$defs", "definitions"} && keyword in node ::
          && node[keyword].JObject?
          && forall name | name in node[keyword].fields :: StrictChild(lint, node[keyword].fields[name], depth))
  }

  ghost predicate StrictChild(lint: Lint, child: Json, depth: nat)
    requires depth <= MAX_DEPTH
    decreases MAX_DEPTH + 1 - depth, 0
  {
    child.JObject? && Strict(lint, child.fields, false, depth + 1)
  }

  lemma NameRepeated(required: seq<Json>, i: nat)
    requires i < |required| && (!required[i].JString? || required[i] in required[..i])
    ensures !DistinctNames(required)
  {
  }

  /** The loop over required: a map of seen names, its size compared with the properties. */
  method CheckRequired(required: seq<Json>, properties: Node) returns (ok: bool)
    ensures ok <==> RequiresEachProperty(required, properties)
  {
    var seen: set<string> := {};
    for i := 0 to |required|
      invariant DistinctNames(required[..i])
      invariant |seen| == i
      invariant forall name :: name in seen <==> JString(name) in required[..i]
    {
      assert required[..i + 1] == required[..i] + [required[i]];
      if !required[i].JString? || required[i].s in seen {
        NameRepeated(required, i);
        return false;
      }
      seen := seen + {required[i].s};
    }
    assert required[..|required|] == required;
    if |seen| != |properties| {
      return false;
    }
    ok := forall name | name in properties :: name in seen;
  }

  /** Distinct required names that number and cover the properties are exactly the properties. */
  lemma RequiredNamesAreTheProperties(required: seq<Json>, properties: Node)
    requires RequiresEachProperty(required, properties)
    ensures forall name :: JString(name) in required <==> name in properties
  {
    var names := NamesOf(required);
    CountNames(required);
    assert forall name :: JString(name) in required <==> name in names;
    SubsetOfSameSize(properties.Keys, names);
  }

  lemma {:induction false} CountNames(required: seq<Json>)
    requires DistinctNames(required)
    ensures |NamesOf(required)| == |required|
    ensures forall name :: JString(name) in required <==> name in NamesOf(required)
  {
    if required != [] {
      CountNames(required[1..]);
      assert required == [required[0]] + required[1..];
      assert required[0].s !in NamesOf(required[1..]);
    }
  }

  ghost function NamesOf(required: seq<Json>): set<string>
    requires DistinctNames(required)
  {
    if required == [] then {} else {required[0].s} + NamesOf(required[1..])
  }

  /** Accepting an object against a strict node with properties leaves no freedom in its keys. */
  lemma AcceptedObjectIsClosed(
    lint: Lint, contract: Contract, node: Node, isRoot: bool, depth: nat, value: Json)
    requires Strict(lint, node, isRoot, depth) && "properties" in node
    requires value.JObject? && Means(contract, node, value, Accept)
    ensures node["properties"].JObject? && value.fields.Keys == node["properties"].fields.Keys
  {
    assert ObjectKeywords(node);
    var n: nat :| Decide(n, contract)(node, value) == Accept;
    var d := Decide(n - 1, contract);
    assert StepAccepts(d, contract, node, value);
    assert ObjectAccepts(d, node, value.fields);
    var properties := Properties(node);
    RequiredNamesAreTheProperties(node["required"].items, properties);
    forall name | name in value.fields ensures name in properties {
      assert FieldVerdict(d, node, name, value.fields[name]) == Accept;
    }
    forall name | name in properties ensures name in value.fields {
      assert JString(name) in node["required"].items;
    }
  }

  ghost predicate StrictSomewhere(lint: Lint, node: Node) {
    exists isRoot, depth :: Strict(lint, node, isRoot, depth)
  }

  lemma DefinitionIsStrict(lint: Lint, name: string, key: string)
    requires Strict(lint, lint.root, true, 0)
    requires name == "$defs" || name == "definitions"
    requires name in lint.root && lint.root[name].JObject? && key in lint.root[name].fields
    ensures lint.root[name].fields[key].JObject? && StrictSomewhere(lint, lint.root[name].fields[key].fields)
  {
    assert name in {"$defs", "definitions"};
    assert StrictChild(lint, lint.root[name].fields[key], 0);
  }

  /** References lead only to definitions at the root, which the linter has seen. */
  lemma ReferencedNodeIsStrict(lint: Lint, node: Node)
    requires Strict(lint, lint.root, true, 0) && HasReference(node) && ReferenceResolves(lint, node)
    ensures StrictSomewhere(lint, Resolve(lint.root, node["$ref"].s).value)
  {
    var name, key := AcceptedReferenceLeadsToDefinition(lint.root, node["$ref"].s);
    DefinitionIsStrict(lint, name, key);
  }

  lemma KeywordChildIsStrict(
    lint: Lint, contract: Contract, node: Node, isRoot: bool, depth: nat, value: Json, inner: Node, part: Json)
    requires Strict(lint, node, isRoot, depth)
    requires IsChild(contract, node, value, inner, part)
    requires !(HasReference(node) && Reference(contract, node) == Some(inner) && part == value)
    ensures StrictChild(lint, JObject(inner), depth)
  {
    var child := JObject(inner);
    if value.JObject? && exists name :: IsFieldChild(node, value.fields, name, inner, part) {
      var name :| IsFieldChild(node, value.fields, name, inner, part);
      assert "properties" in node && ObjectKeywords(node);
      assert StrictChild(lint, Properties(node)[name], depth);
    } else if value.JArray? && Has(node, "items", child) {
      assert HasAny(node, {"items", "minItems", "maxItems", "uniqueItems"});
      assert StrictChild(lint, node["items"], depth);
    } else if Has(node, "not", child) {
      assert StrictChild(lint, node["not"], depth);
    } else {
      var keyword := if child in Members(node, "allOf") then "allOf"
                     else if child in Members(node, "anyOf") then "anyOf" else "oneOf";
      assert child in Members(node, keyword) && keyword in {"allOf", "anyOf", "oneOf"};
      var i :| 0 <= i < |Members(node, keyword)| && Members(node, keyword)[i] == child;
      assert StrictChild(lint, node[keyword].items[i], depth);
    }
  }

  /** Strictness is inherited by every subschema an evaluation can descend into. */
  lemma ChildOfStrictIsStrict(
    lint: Lint, contract: Contract, node: Node, value: Json, inner: Node, part: Json)
    requires contract.root == lint.root
    requires Strict(lint, lint.root, true, 0) && StrictSomewhere(lint, node)
    requires IsChild(contract, node, value, inner, part)
    ensures StrictSomewhere(lint, inner)
  {
    var isRoot, depth :| Strict(lint, node, isRoot, depth);
    if HasReference(node) && Reference(contract, node) == Some(inner) && part == value {
      ReferencedNodeIsStrict(lint, node);
    } else {
      KeywordChildIsStrict(lint, contract, node, isRoot, depth, value, inner, part);
    }
  }

  datatype Application = Application(schema: Node, value: Json)

  /** Applications an evaluation reaches one below the other, whatever it makes of them. */
  ghost predicate IsChain(contract: Contract, chain: seq<Application>) {
    forall i | 0 < i < |chain| :: Descends(contract, chain[i - 1], chain[i])
  }

  ghost predicate Descends(contract: Contract, from: Application, to: Application) {
    IsChild(contract, from.schema, from.value, to.schema, to.value)
  }

  lemma {:induction false} ReachedNodeIsStrict(lint: Lint, contract: Contract, chain: seq<Application>, i: nat)
    requires contract.root == lint.root && Strict(lint, lint.root, true, 0)
    requires i < |chain| && chain[0].schema == lint.root && IsChain(contract, chain)
    ensures StrictSomewhere(lint, chain[i].schema)
  {
    if i > 0 {
      ReachedNodeIsStrict(lint, contract, chain, i - 1);
      assert Descends(contract, chain[i - 1], chain[i]);
      ChildOfStrictIsStrict(
        lint, contract, chain[i - 1].schema, chain[i - 1].value, chain[i].schema, chain[i].value);
    }
  }

  /** The contract of the linter: wherever an evaluation of a linted root gets, an object accepted at a node with
      properties has exactly those properties as keys; the schemas above it, a failing anyOf or a not, need not
      accept. */
  lemma LinterForcesClosedObjects(lint: Lint, contract: Contract, chain: seq<Application>, i: nat)
    requires contract.root == lint.root && Strict(lint, lint.root, true, 0)
    requires i < |chain| && chain[0].schema == lint.root && IsChain(contract, chain)
    requires Means(contract, chain[i].schema, chain[i].value, Accept)
    requires "properties" in chain[i].schema && chain[i].value.JObject?
    ensures chain[i].schema["properties"].JObject?
    ensures chain[i].value.fields.Keys == chain[i].schema["properties"].fields.Keys
  {
    ReachedNodeIsStrict(lint, contract, chain, i);
    var isRoot, depth :| Strict(lint, chain[i].schema, isRoot, depth);
    AcceptedObjectIsClosed(lint, contract, chain[i].schema, isRoot, depth, chain[i].value);
  }
}
