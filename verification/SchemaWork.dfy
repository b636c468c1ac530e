/** How many applications of schemas to values an evaluation runs: at most Work, and at least Least. */
module SchemaWork {
  import opened EqualityKey
  import opened FiniteSums
  import opened JsonPointer
  import opened JsonValues
  import opened Prelude
  import opened SchemaMeaning

  /** How many applications a subschema takes on a value. */
  type Cost = (Node, Json) -> nat

  function ChildWork(w: Cost, child: Json, value: Json): nat {
    if child.JObject? then w(child.fields, value) else 0
  }

  function ReferenceWork(w: Cost, contract: Contract, schema: Node, value: Json): nat {
    if HasReference(schema) && Reference(contract, schema).Some? then w(Reference(contract, schema).value, value) else 0
  }

  function MemberCosts(w: Cost, children: seq<Json>, value: Json): (costs: seq<nat>)
    ensures |costs| == |children|
  {
    if children == [] then [] else [ChildWork(w, children[0], value)] + MemberCosts(w, children[1..], value)
  }

  lemma {:induction false} MemberCost(w: Cost, children: seq<Json>, value: Json, i: nat)
    requires i < |children|
    ensures MemberCosts(w, children, value)[i] == ChildWork(w, children[i], value)
    decreases i
  {
    if i > 0 {
      MemberCost(w, children[1..], value, i - 1);
    }
  }

  function ItemCosts(w: Cost, inner: Node, items: seq<Json>): (costs: seq<nat>)
    ensures |costs| == |items|
  {
    if items == [] then [] else [w(inner, items[0])] + ItemCosts(w, inner, items[1..])
  }

  lemma {:induction false} ItemCost(w: Cost, inner: Node, items: seq<Json>, i: nat)
    requires i < |items|
    ensures ItemCosts(w, inner, items)[i] == w(inner, items[i])
    decreases i
  {
    if i > 0 {
      ItemCost(w, inner, items[1..], i - 1);
    }
  }

  /** The first count costs, each with its multiplicity. */
  function Total(costs: seq<nat>, count: nat): nat
    requires count <= |costs|
  {
    if count == 0 then 0 else Total(costs, count - 1) + costs[count - 1]
  }

  function MembersWork(w: Cost, schema: Node, keyword: string, value: Json): nat {
    var costs := MemberCosts(w, Members(schema, keyword), value);
    Total(costs, |costs|)
  }

  function ItemsWork(w: Cost, inner: Node, items: seq<Json>): nat {
    Total(ItemCosts(w, inner, items), |items|)
  }

  /** The members up to the first that d accepts. */
  function UntilAccepted(w: Cost, d: Decision, children: seq<Json>, value: Json): nat {
    if children == [] then 0
    else ChildWork(w, children[0], value)
         + if Child(d, children[0], value) == Accept then 0 else UntilAccepted(w, d, children[1..], value)
  }

  function NotWork(w: Cost, schema: Node, value: Json): nat {
    if "not" in schema then ChildWork(w, schema["not"], value) else 0
  }

  function FieldWork(w: Cost, schema: Node, name: string, value: Json): nat {
    var properties := Properties(schema);
    if name in properties then ChildWork(w, properties[name], value) else 0
  }

  function FieldCosts(w: Cost, schema: Node, fields: Node, names: set<string>): map<string, nat>
    requires names <= fields.Keys
  {
    map name | name in names :: FieldWork(w, schema, name, fields[name])
  }

  function Itself(n: nat): int {
    n
  }

  ghost function FieldsWork(w: Cost, schema: Node, fields: Node, names: set<string>): nat
    requires names <= fields.Keys
  {
    var costs := FieldCosts(w, schema, fields, names);
    SumIsNotNegative(costs, Itself);
    Sum(costs, Itself)
  }

  lemma FieldsWorkSplits(w: Cost, schema: Node, fields: Node, names: set<string>, name: string)
    requires names <= fields.Keys && name in names
    ensures FieldsWork(w, schema, fields, names)
         == FieldWork(w, schema, name, fields[name]) + FieldsWork(w, schema, fields, names - {name})
  {
    var costs := FieldCosts(w, schema, fields, names);
    SumSplits(costs, name, Itself);
    assert costs - {name} == FieldCosts(w, schema, fields, names - {name});
  }

  ghost function KindWork(w: Cost, schema: Node, value: Json): nat {
    match value
    case JObject(fields) => FieldsWork(w, schema, fields, fields.Keys)
    case JArray(items) =>
      if "items" in schema && schema["items"].JObject? then ItemsWork(w, schema["items"].fields, items) else 0
    case _ => 0
  }

  ghost function ComposedWork(w: Cost, schema: Node, value: Json): nat {
    MembersWork(w, schema, "allOf", value)
    + MembersWork(w, schema, "anyOf", value)
    + MembersWork(w, schema, "oneOf", value)
    + NotWork(w, schema, value)
  }

  /** Every subschema of every keyword. */
  ghost function KeywordsWork(w: Cost, contract: Contract, schema: Node, value: Json): nat {
    ReferenceWork(w, contract, schema, value) + ComposedWork(w, schema, value) + KindWork(w, schema, value)
  }

  ghost function Widen(w: Cost, contract: Contract): Cost {
    (schema, value) => 1 + KeywordsWork(w, contract, schema, value)
  }

  /** The applications an evaluation can run at most, its own included, when subschemas may nest n deep. */
  ghost function Work(n: nat, contract: Contract): Cost {
    if n == 0 then (schema, value) => 0 else Widen(Work(n - 1, contract), contract)
  }

  ghost function AlternativesLeast(w: Cost, d: Decision, schema: Node, keyword: string, value: Json): nat {
    if keyword == "anyOf" then UntilAccepted(w, d, Members(schema, keyword), value)
    else MembersWork(w, schema, keyword, value)
  }

  /** Only anyOf may end before its last member. */
  ghost function ComposedLeast(w: Cost, d: Decision, schema: Node, value: Json): nat {
    MembersWork(w, schema, "allOf", value)
    + AlternativesLeast(w, d, schema, "anyOf", value)
    + AlternativesLeast(w, d, schema, "oneOf", value)
    + NotWork(w, schema, value)
  }

  ghost function KeywordsLeast(w: Cost, d: Decision, contract: Contract, schema: Node, value: Json): nat {
    ReferenceWork(w, contract, schema, value) + ComposedLeast(w, d, schema, value) + KindWork(w, schema, value)
  }

  ghost function Narrow(w: Cost, d: Decision, contract: Contract): Cost {
    (schema, value) =>
      1 + if StepVerdict(d, contract, schema, value) == Accept then KeywordsLeast(w, d, contract, schema, value) else 0
  }

  /** The applications an evaluation runs at least before it decides: an accepting one skips nothing but with anyOf. */
  ghost function Least(n: nat, contract: Contract): Cost {
    if n == 0 then (schema, value) => 0 else Narrow(Least(n - 1, contract), Decide(n - 1, contract), contract)
  }

  lemma {:induction false} TotalsGrow(costs: seq<nat>, i: nat, count: nat)
    requires i <= count <= |costs|
    ensures Total(costs, i) <= Total(costs, count)
  {
    if i < count {
      TotalsGrow(costs, i, count - 1);
    }
  }

  lemma {:induction false} FirstCost(costs: seq<nat>, count: nat)
    requires 0 < count <= |costs|
    ensures Total(costs, count) == costs[0] + Total(costs[1..], count - 1)
  {
    if count > 1 {
      FirstCost(costs, count - 1);
    }
  }

  lemma {:induction false} UntilAcceptedIsPart(w: Cost, d: Decision, children: seq<Json>, value: Json, i: nat)
    requires i < |children| && Child(d, children[i], value) == Accept
    ensures UntilAccepted(w, d, children, value) <= Total(MemberCosts(w, children, value), i + 1)
    decreases i
  {
    FirstCost(MemberCosts(w, children, value), i + 1);
    if Child(d, children[0], value) != Accept {
      UntilAcceptedIsPart(w, d, children[1..], value, i - 1);
    }
  }

  lemma {:induction false} SameMemberCosts(v: Cost, w: Cost, children: seq<Json>, value: Json)
    requires forall child | child in children :: ChildWork(v, child, value) == ChildWork(w, child, value)
    ensures MemberCosts(v, children, value) == MemberCosts(w, children, value)
  {
    if children != [] {
      assert children[0] in children;
      SameMemberCosts(v, w, children[1..], value);
    }
  }

  lemma {:induction false} SameItemCosts(v: Cost, w: Cost, inner: Node, items: seq<Json>)
    requires forall item | item in items :: v(inner, item) == w(inner, item)
    ensures ItemCosts(v, inner, items) == ItemCosts(w, inner, items)
  {
    if items != [] {
      assert items[0] in items;
      SameItemCosts(v, w, inner, items[1..]);
    }
  }

  lemma SameFieldsWork(v: Cost, w: Cost, schema: Node, fields: Node)
    requires forall name | name in fields ::
               FieldWork(v, schema, name, fields[name]) == FieldWork(w, schema, name, fields[name])
    ensures FieldsWork(v, schema, fields, fields.Keys) == FieldsWork(w, schema, fields, fields.Keys)
  {
    assert FieldCosts(v, schema, fields, fields.Keys) == FieldCosts(w, schema, fields, fields.Keys);
  }

  ghost predicate AgreeBelow(v: Cost, w: Cost, contract: Contract, schema: Node, value: Json) {
    forall inner, part | IsChild(contract, schema, value, inner, part) :: v(inner, part) == w(inner, part)
  }

  lemma SameKindWork(v: Cost, w: Cost, contract: Contract, schema: Node, value: Json)
    requires AgreeBelow(v, w, contract, schema, value)
    ensures KindWork(v, schema, value) == KindWork(w, schema, value)
  {
    if value.JObject? {
      forall name | name in value.fields
        ensures FieldWork(v, schema, name, value.fields[name]) == FieldWork(w, schema, name, value.fields[name])
      {
        var properties := Properties(schema);
        if name in properties && properties[name].JObject? {
          assert IsFieldChild(schema, value.fields, name, properties[name].fields, value.fields[name]);
        }
      }
      SameFieldsWork(v, w, schema, value.fields);
    } else if value.JArray? && "items" in schema && schema["items"].JObject? {
      SameItemCosts(v, w, schema["items"].fields, value.items);
    }
  }

  lemma SameMembersWork(v: Cost, w: Cost, contract: Contract, schema: Node, keyword: string, value: Json)
    requires keyword == "allOf" || keyword == "anyOf" || keyword == "oneOf"
    requires AgreeBelow(v, w, contract, schema, value)
    ensures MembersWork(v, schema, keyword, value) == MembersWork(w, schema, keyword, value)
  {
    forall child | child in Members(schema, keyword)
      ensures ChildWork(v, child, value) == ChildWork(w, child, value)
    {
      if child.JObject? {
        assert IsChild(contract, schema, value, child.fields, value);
      }
    }
    SameMemberCosts(v, w, Members(schema, keyword), value);
  }

  lemma SameKeywordsWork(v: Cost, w: Cost, contract: Contract, schema: Node, value: Json)
    requires AgreeBelow(v, w, contract, schema, value)
    ensures KeywordsWork(v, contract, schema, value) == KeywordsWork(w, contract, schema, value)
  {
    SameMembersWork(v, w, contract, schema, "allOf", value);
    SameMembersWork(v, w, contract, schema, "anyOf", value);
    SameMembersWork(v, w, contract, schema, "oneOf", value);
    SameKindWork(v, w, contract, schema, value);
  }

  /** Where subschemas nest less than m deep, allowing more levels adds no application. */
  lemma {:induction false} WorkIsReached(m: nat, n: nat, contract: Contract, schema: Node, value: Json)
    requires m <= n && !Nests(m, contract, schema, value)
    ensures Work(n, contract)(schema, value) == Work(m, contract)(schema, value)
    decreases m
  {
    forall inner, part | IsChild(contract, schema, value, inner, part)
      ensures Work(m - 1, contract)(inner, part) == Work(n - 1, contract)(inner, part)
    {
      WorkIsReached(m - 1, n - 1, contract, inner, part);
    }
    SameKeywordsWork(Work(m - 1, contract), Work(n - 1, contract), contract, schema, value);
  }
}
