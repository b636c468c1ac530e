/** The evaluator: one recursive descent that shares a step budget and a nesting limit. */
module SchemaEvaluator {
  import opened EqualityKey
  import opened JsonPointer
  import opened JsonValues
  import opened Prelude
  import opened SchemaMeaning
  import opened SchemaWork

  const MAX_STEPS := 10_000
  const MAX_NESTING := 128

  /** How many levels of subschemas the nesting limit still allows from a depth. */
  function Levels(depth: nat): nat {
    if depth > MAX_NESTING then 0 else MAX_NESTING + 1 - depth
  }

  /** The shared counter of steps left; exhausted remembers a limit error. */
  class Budget {
    var remaining: int
    ghost var exhausted: bool

    ghost predicate Valid()
      reads this
    {
      0 <= remaining
    }

    constructor (limit: nat)
      ensures Valid() && remaining == limit && !exhausted
    {
      remaining, exhausted := limit, false;
    }
  }

  /** What subschemas decide, and how many applications they take at least and at most. */
  datatype Level = Level(decide: Decision, least: Cost, most: Cost)

  /** The subschemas may nest n deep. Quantified, so that a definition unfolds only where it is named. */
  ghost predicate IsLevel(level: Level, n: nat, contract: Contract) {
    && (forall k | k == n :: level.decide == Decide(k, contract))
    && (forall k | k == n :: level.least == Least(k, contract))
    && (forall k | k == n :: level.most == Work(k, contract))
  }

  /**
   * What every part of the evaluator leaves behind, given the steps that were left before it: a limit error is final
   * and has one of two causes, and otherwise at least the steps that were due and at most those it may need are gone.
   */
  ghost predicate Settled(verdict: Verdict, budget: Budget, before: int, least: nat, most: nat,
                          depth: nat, contract: Contract, schema: Node, value: Json)
    reads budget
  {
    && budget.Valid()
    && (verdict == Limit <==> budget.exhausted)
    && before - most <= budget.remaining <= before
    && (verdict != Limit ==> budget.remaining <= before - least)
    && (verdict == Limit ==>
          (budget.remaining == 0 && before < most) || Nests(Levels(depth), contract, schema, value))
  }

  /** The steps gone after the first i of some subschemas were applied. */
  ghost predicate Paid(before: int, remaining: int, least: seq<nat>, most: seq<nat>, i: nat) {
    && i <= |least| == |most|
    && before - Total(most, |most|) <= before - Total(most, i) <= remaining <= before - Total(least, i) <= before
  }

  ghost predicate MembersPaid(before: int, remaining: int, below: Level, children: seq<Json>, value: Json, i: int) {
    var least, most := MemberCosts(below.least, children, value), MemberCosts(below.most, children, value);
    0 <= i && Paid(before, remaining, least, most, i)
  }

  /** The steps gone when only the fields of rest are left to visit. */
  ghost predicate FieldsPaid(
    before: int, remaining: int, least: Cost, most: Cost, schema: Node, fields: Node, rest: set<string>)
    requires rest <= fields.Keys
  {
    && remaining <= before
    && remaining - FieldsWork(most, schema, fields, rest) >= before - FieldsWork(most, schema, fields, fields.Keys)
    && remaining - FieldsWork(least, schema, fields, rest) <= before - FieldsWork(least, schema, fields, fields.Keys)
  }

  lemma PaidGrows(before: int, between: int, remaining: int, least: seq<nat>, most: seq<nat>, i: nat)
    requires Paid(before, between, least, most, i) && i < |most|
    ensures between - most[i] <= remaining <= between - least[i] ==> Paid(before, remaining, least, most, i + 1)
    ensures between < most[i] ==> before < Total(most, |most|)
    ensures between - most[i] <= remaining ==> before - Total(most, |most|) <= remaining
  {
    TotalsGrow(most, i + 1, |most|);
  }

  /** What only an accepting part has to pay. */
  function IfAccepted(verdict: Verdict, least: nat): nat {
    if verdict == Accept then least else 0
  }

  method Validate(contract: Contract, schema: Node, value: Json, depth: nat, budget: Budget) returns (verdict: Verdict)
    requires budget.Valid() && !budget.exhausted
    modifies budget
    ensures Settled(verdict, budget, old(budget.remaining),
                    Least(Levels(depth), contract)(schema, value), Work(Levels(depth), contract)(schema, value),
                    depth, contract, schema, value)
    ensures verdict != Limit ==> verdict == Decide(Levels(depth), contract)(schema, value)
    decreases Levels(depth), 6
  {
    if depth > MAX_NESTING || budget.remaining <= 0 {
      budget.exhausted := true;
      return Limit;
    }
    budget.remaining := budget.remaining - 1;
    ghost var below := LevelOf(Levels(depth + 1), contract);
    verdict := ValidateKeywords(contract, schema, value, depth, budget, below);
    KeywordsSettle(verdict, budget, old(budget.remaining), depth, contract, schema, value, below);
  }

  /** What the keywords leave behind, with the application that was charged for them. */
  lemma KeywordsSettle(verdict: Verdict, budget: Budget, before: int, depth: nat, contract: Contract, schema: Node,
                       value: Json, below: Level)
    requires depth <= MAX_NESTING && before > 0 && below == LevelOf(Levels(depth + 1), contract)
    requires Settled(verdict, budget, before - 1,
                     IfAccepted(verdict, KeywordsLeast(below.least, below.decide, contract, schema, value)),
                     KeywordsWork(below.most, contract, schema, value), depth, contract, schema, value)
    requires verdict == Accept ==> StepAccepts(below.decide, contract, schema, value)
    requires verdict == Reject ==> StepRejects(below.decide, contract, schema, value)
    ensures Settled(verdict, budget, before,
                    Least(Levels(depth), contract)(schema, value), Work(Levels(depth), contract)(schema, value),
                    depth, contract, schema, value)
    ensures verdict != Limit ==> verdict == Decide(Levels(depth), contract)(schema, value)
  {
    LevelOpens(Levels(depth + 1), contract, schema, value, below);
  }

  ghost function LevelOf(n: nat, contract: Contract): Level {
    Level(Decide(n, contract), Least(n, contract), Work(n, contract))
  }

  /** One level more decides what its step decides, and adds one application to those of its keywords. */
  lemma LevelOpens(n: nat, contract: Contract, schema: Node, value: Json, below: Level)
    requires below == LevelOf(n, contract)
    ensures Work(n + 1, contract)(schema, value) == 1 + KeywordsWork(below.most, contract, schema, value)
    ensures StepAccepts(below.decide, contract, schema, value) ==>
              && Decide(n + 1, contract)(schema, value) == Accept
              && Least(n + 1, contract)(schema, value)
                 == 1 + KeywordsLeast(below.least, below.decide, contract, schema, value)
    ensures StepRejects(below.decide, contract, schema, value) ==>
              Decide(n + 1, contract)(schema, value) == Reject && Least(n + 1, contract)(schema, value) == 1
  {
    StepDecides(n, contract, schema, value);
  }

  /** One subschema on a part of the value, a level deeper. */
  method Apply(contract: Contract, inner: Node, part: Json, depth: nat, budget: Budget, ghost below: Level)
    returns (verdict: Verdict)
    requires budget.Valid() && !budget.exhausted && depth <= MAX_NESTING
    requires IsLevel(below, Levels(depth + 1), contract)
    modifies budget
    ensures Settled(verdict, budget, old(budget.remaining), below.least(inner, part), below.most(inner, part),
                    depth + 1, contract, inner, part)
    ensures verdict != Limit ==> verdict == below.decide(inner, part)
    decreases Levels(depth), 0
  {
    verdict := Validate(contract, inner, part, depth + 1, budget);
  }

  /** The keywords in the order the evaluator reads them; the first that fails ends the step. */
  method ValidateKeywords(contract: Contract, schema: Node, value: Json, depth: nat, budget: Budget, ghost below: Level)
    returns (verdict: Verdict)
    requires budget.Valid() && !budget.exhausted && depth <= MAX_NESTING
    requires IsLevel(below, Levels(depth + 1), contract)
    modifies budget
    ensures Settled(verdict, budget, old(budget.remaining),
                    IfAccepted(verdict, KeywordsLeast(below.least, below.decide, contract, schema, value)),
                    KeywordsWork(below.most, contract, schema, value),
                    depth, contract, schema, value)
    ensures verdict == Accept ==> StepAccepts(below.decide, contract, schema, value)
    ensures verdict == Reject ==> StepRejects(below.decide, contract, schema, value)
    decreases Levels(depth), 5
  {
    verdict := ValidateReference(contract, schema, value, depth, budget, below);
    if verdict != Accept {
      return;
    }
    if "const" in schema && !JsonValuesEqual(schema["const"], value) {
      return Reject;
    }
    var listed := MatchesEnum(schema, value);
    if !listed {
      return Reject;
    }
    verdict := ValidateComposed(contract, schema, value, depth, budget, below);
    if verdict != Accept {
      return;
    }
    if !TypeHolds(schema, value) {
      return Reject;
    }
    verdict := ValidateKind(contract, schema, value, depth, budget, below);
  }

  method ValidateReference(
    contract: Contract, schema: Node, value: Json, depth: nat, budget: Budget, ghost below: Level)
    returns (verdict: Verdict)
    requires budget.Valid() && !budget.exhausted && depth <= MAX_NESTING
    requires IsLevel(below, Levels(depth + 1), contract)
    modifies budget
    ensures Settled(verdict, budget, old(budget.remaining),
                    IfAccepted(verdict, ReferenceWork(below.least, contract, schema, value)),
                    ReferenceWork(below.most, contract, schema, value),
                    depth, contract, schema, value)
    ensures verdict != Limit ==>
              verdict == ReferenceVerdict(below.decide, contract, schema, value)
    decreases Levels(depth), 2
  {
    if !("$ref" in schema && schema["$ref"].JString?) {
      return Accept;
    }
    var resolved := ResolveLocalReference(contract.root, schema["$ref"].s);
    if resolved.None? {
      return Reject;
    }
    verdict := Apply(contract, resolved.value, value, depth, budget, below);
    assert IsChild(contract, schema, value, resolved.value, value);
  }

  method MatchesEnum(schema: Node, value: Json) returns (matched: bool)
    ensures matched <==> EnumHolds(schema, value)
  {
    if "enum" !in schema {
      return true;
    }
    if !schema["enum"].JArray? {
      return false;
    }
    var candidates := schema["enum"].items;
    for i := 0 to |candidates|
      invariant forall j | 0 <= j < i :: !JsonValuesEqual(candidates[j], value)
    {
      if JsonValuesEqual(candidates[i], value) {
        return true;
      }
    }
    return false;
  }

  method ValidateComposed(contract: Contract, schema: Node, value: Json, depth: nat, budget: Budget, ghost below: Level)
    returns (verdict: Verdict)
    requires budget.Valid() && !budget.exhausted && depth <= MAX_NESTING
    requires IsLevel(below, Levels(depth + 1), contract)
    modifies budget
    ensures Settled(verdict, budget, old(budget.remaining),
                    IfAccepted(verdict, ComposedLeast(below.least, below.decide, schema, value)),
                    ComposedWork(below.most, schema, value),
                    depth, contract, schema, value)
    ensures verdict == Accept ==> ComposedAccepts(below.decide, schema, value)
    ensures verdict == Reject ==> ComposedRejects(below.decide, schema, value)
    decreases Levels(depth), 4
  {
    verdict := ValidateAllOf(contract, schema, value, depth, budget, below);
    if verdict != Accept {
      return;
    }
    verdict := ValidateAlternatives(contract, schema, "anyOf", value, depth, budget, below);
    if verdict != Accept {
      return;
    }
    verdict := ValidateAlternatives(contract, schema, "oneOf", value, depth, budget, below);
    if verdict != Accept {
      return;
    }
    verdict := ValidateNot(contract, schema, value, depth, budget, below);
  }

  ghost predicate AllAccepted(verdicts: seq<Verdict>, count: nat) {
    count <= |verdicts| && forall i | 0 <= i < count :: verdicts[i] == Accept
  }

  ghost predicate SomeRejected(verdicts: seq<Verdict>) {
    exists i | 0 <= i < |verdicts| :: verdicts[i] == Reject
  }

  ghost function MemberVerdicts(d: Decision, children: seq<Json>, value: Json): (verdicts: seq<Verdict>)
    ensures |verdicts| == |children|
  {
    if children == [] then [] else [Child(d, children[0], value)] + MemberVerdicts(d, children[1..], value)
  }

  lemma {:induction false} MemberVerdict(d: Decision, children: seq<Json>, value: Json, i: nat)
    requires i < |children|
    ensures MemberVerdicts(d, children, value)[i] == Child(d, children[i], value)
    decreases i
  {
    if i > 0 {
      MemberVerdict(d, children[1..], value, i - 1);
    }
  }

  lemma MemberAt(below: Level, children: seq<Json>, value: Json, i: nat)
    requires i < |children|
    ensures MemberVerdicts(below.decide, children, value)[i] == Child(below.decide, children[i], value)
    ensures MemberCosts(below.least, children, value)[i] == ChildWork(below.least, children[i], value)
    ensures MemberCosts(below.most, children, value)[i] == ChildWork(below.most, children[i], value)
  {
    MemberVerdict(below.decide, children, value, i);
    MemberCost(below.least, children, value, i);
    MemberCost(below.most, children, value, i);
  }

  /** One member of a composing keyword; anything but an object is rejected. */
  method ValidateMember(
    contract: Contract, schema: Node, keyword: string, i: nat, value: Json, depth: nat, budget: Budget,
    ghost below: Level, ghost before: int)
    returns (verdict: Verdict)
    requires keyword == "allOf" || keyword == "anyOf" || keyword == "oneOf"
    requires i < |Members(schema, keyword)|
    requires MembersPaid(before, budget.remaining, below, Members(schema, keyword), value, i)
    requires budget.Valid() && !budget.exhausted && depth <= MAX_NESTING
    requires IsLevel(below, Levels(depth + 1), contract)
    modifies budget
    ensures verdict == Limit ==>
              Settled(verdict, budget, before, 0, MembersWork(below.most, schema, keyword, value),
                      depth, contract, schema, value)
    ensures verdict != Limit ==>
              && budget.Valid() && !budget.exhausted
              && verdict == MemberVerdicts(below.decide, Members(schema, keyword), value)[i]
              && MembersPaid(before, budget.remaining, below, Members(schema, keyword), value, i + 1)
    decreases Levels(depth), 1
  {
    MemberAt(below, Members(schema, keyword), value, i);
    ghost var children, between := Members(schema, keyword), budget.remaining;
    ghost var least, most := MemberCosts(below.least, children, value), MemberCosts(below.most, children, value);
    if !Members(schema, keyword)[i].JObject? {
      PaidGrows(before, between, between, least, most, i);
      return Reject;
    }
    var child := Members(schema, keyword)[i].fields;
    verdict := Apply(contract, child, value, depth, budget, below);
    PaidGrows(before, between, budget.remaining, least, most, i);
    assert JObject(child) in Members(schema, keyword);
    NestsBelow(contract, schema, value, child, value, depth);
  }

  lemma NestsBelow(contract: Contract, schema: Node, value: Json, inner: Node, part: Json, depth: nat)
    requires IsChild(contract, schema, value, inner, part) && depth <= MAX_NESTING
    ensures Nests(Levels(depth + 1), contract, inner, part) ==> Nests(Levels(depth), contract, schema, value)
  {
  }

  method ValidateAllOf(contract: Contract, schema: Node, value: Json, depth: nat, budget: Budget, ghost below: Level)
    returns (verdict: Verdict)
    requires budget.Valid() && !budget.exhausted && depth <= MAX_NESTING
    requires IsLevel(below, Levels(depth + 1), contract)
    modifies budget
    ensures Settled(verdict, budget, old(budget.remaining),
                    IfAccepted(verdict, MembersWork(below.least, schema, "allOf", value)),
                    MembersWork(below.most, schema, "allOf", value),
                    depth, contract, schema, value)
    ensures verdict == Accept ==> AllOfAccepts(below.decide, schema, value)
    ensures verdict == Reject ==> AllOfRejects(below.decide, schema, value)
    decreases Levels(depth), 3
  {
    if "allOf" !in schema {
      return Accept;
    }
    if !schema["allOf"].JArray? {
      return Reject;
    }
    verdict := ValidateMembers(contract, schema, "allOf", value, depth, budget, below);
    AllOfDecided(below.decide, schema, value);
  }

  lemma MembersDecided(d: Decision, children: seq<Json>, value: Json)
    ensures forall i | 0 <= i < |children| :: MemberVerdicts(d, children, value)[i] == Child(d, children[i], value)
  {
    forall i | 0 <= i < |children| ensures MemberVerdicts(d, children, value)[i] == Child(d, children[i], value) {
      MemberVerdict(d, children, value, i);
    }
  }

  lemma AllOfDecided(d: Decision, schema: Node, value: Json)
    requires IsList(schema, "allOf")
    ensures var verdicts := MemberVerdicts(d, Members(schema, "allOf"), value);
            && (AllAccepted(verdicts, |verdicts|) ==> AllOfAccepts(d, schema, value))
            && (SomeRejected(verdicts) ==> AllOfRejects(d, schema, value))
  {
    MembersDecided(d, Members(schema, "allOf"), value);
  }

  /** The members of allOf one after the other, until one is not accepted. */
  method ValidateMembers(
    contract: Contract, schema: Node, keyword: string, value: Json, depth: nat, budget: Budget, ghost below: Level)
    returns (verdict: Verdict)
    requires keyword == "allOf"
    requires budget.Valid() && !budget.exhausted && depth <= MAX_NESTING
    requires IsLevel(below, Levels(depth + 1), contract)
    modifies budget
    ensures Settled(verdict, budget, old(budget.remaining),
                    IfAccepted(verdict, MembersWork(below.least, schema, keyword, value)),
                    MembersWork(below.most, schema, keyword, value),
                    depth, contract, schema, value)
    ensures var verdicts := MemberVerdicts(below.decide, Members(schema, keyword), value);
            && (verdict == Accept ==> AllAccepted(verdicts, |verdicts|))
            && (verdict == Reject ==> SomeRejected(verdicts))
    decreases Levels(depth), 2
  {
    var children := Members(schema, keyword);
    ghost var verdicts := MemberVerdicts(below.decide, children, value);
    for i := 0 to |children|
      invariant budget.Valid() && !budget.exhausted
      invariant MembersPaid(old(budget.remaining), budget.remaining, below, children, value, i)
      invariant AllAccepted(verdicts, i)
    {
      verdict := ValidateMember(contract, schema, keyword, i, value, depth, budget, below, old(budget.remaining));
      if verdict != Accept {
        return;
      }
    }
    return Accept;
  }

  /** anyOf stops at the first accepting child; oneOf counts them all. */
  method ValidateAlternatives(
    contract: Contract, schema: Node, keyword: string, value: Json, depth: nat, budget: Budget, ghost below: Level)
    returns (verdict: Verdict)
    requires budget.Valid() && !budget.exhausted && depth <= MAX_NESTING
    requires IsLevel(below, Levels(depth + 1), contract)
    requires keyword == "anyOf" || keyword == "oneOf"
    modifies budget
    ensures Settled(verdict, budget, old(budget.remaining),
                    IfAccepted(verdict, AlternativesLeast(below.least, below.decide, schema, keyword, value)),
                    MembersWork(below.most, schema, keyword, value),
                    depth, contract, schema, value)
    ensures verdict == Accept && keyword == "anyOf" ==> AnyOfAccepts(below.decide, schema, value)
    ensures verdict == Reject && keyword == "anyOf" ==> AnyOfRejects(below.decide, schema, value)
    ensures verdict == Accept && keyword == "oneOf" ==> OneOfAccepts(below.decide, schema, value)
    ensures verdict == Reject && keyword == "oneOf" ==> OneOfRejects(below.decide, schema, value)
    decreases Levels(depth), 3
  {
    if keyword !in schema {
      return Accept;
    }
    if !schema[keyword].JArray? {
      return Reject;
    }
    var limited, malformed, matches;
    ghost var verdicts;
    limited, malformed, matches, verdicts := ScanAlternatives(contract, schema, keyword, value, depth, budget, below);
    if limited {
      return Limit;
    }
    AlternativesDecided(below.decide, schema, keyword, value, malformed, verdicts, matches);
    if malformed || (keyword == "anyOf" && matches == 0) || (keyword == "oneOf" && matches != 1) {
      return Reject;
    }
    AlternativesPaid(below, schema, keyword, value, verdicts);
    return Accept;
  }

  /** Counts the accepting members, up to the first one for anyOf. */
  method ScanAlternatives(
    contract: Contract, schema: Node, keyword: string, value: Json, depth: nat, budget: Budget, ghost below: Level)
    returns (limited: bool, malformed: bool, matches: nat, ghost verdicts: seq<Verdict>)
    requires budget.Valid() && !budget.exhausted && depth <= MAX_NESTING
    requires IsLevel(below, Levels(depth + 1), contract)
    requires keyword == "anyOf" || keyword == "oneOf"
    modifies budget
    ensures var children := Members(schema, keyword);
            if limited then
              Settled(Limit, budget, old(budget.remaining), 0, MembersWork(below.most, schema, keyword, value),
                      depth, contract, schema, value)
            else
              && budget.Valid() && !budget.exhausted
              && MembersPaid(old(budget.remaining), budget.remaining, below, children, value, |verdicts|)
              && ScanEnded(MemberVerdicts(below.decide, children, value), children, keyword,
                           malformed, verdicts, matches)
    decreases Levels(depth), 2
  {
    var children := Members(schema, keyword);
    verdicts, matches := [], 0;
    ghost var expected := MemberVerdicts(below.decide, children, value);
    for i := 0 to |children|
      invariant budget.Valid() && !budget.exhausted
      invariant MembersPaid(old(budget.remaining), budget.remaining, below, children, value, i)
      invariant |verdicts| == i && ScanSoFar(expected, children, keyword, verdicts, matches)
    {
      if !children[i].JObject? {
        ScanStops(expected, children, keyword, verdicts, matches);
        return false, true, matches, verdicts;
      }
      var verdict := ValidateMember(contract, schema, keyword, i, value, depth, budget, below, old(budget.remaining));
      if verdict == Limit {
        return true, false, matches, verdicts;
      }
      ScanGoesOn(expected, children, keyword, verdicts, matches, verdict);
      verdicts := verdicts + [verdict];
      if verdict == Accept {
        matches := matches + 1;
        if keyword == "anyOf" {
          return false, false, matches, verdicts;
        }
      }
    }
    ScanStops(expected, children, keyword, verdicts, matches);
    return false, false, matches, verdicts;
  }

  ghost predicate ScanSoFar(
    expected: seq<Verdict>, children: seq<Json>, keyword: string, verdicts: seq<Verdict>, matches: nat)
  {
    && Scanned(verdicts, children, expected)
    && matches == CountAccepted(verdicts)
    && (keyword == "anyOf" ==> matches == 0)
  }

  lemma ScanGoesOn(expected: seq<Verdict>, children: seq<Json>, keyword: string, verdicts: seq<Verdict>, matches: nat,
                   verdict: Verdict)
    requires ScanSoFar(expected, children, keyword, verdicts, matches) && |verdicts| < |children|
    requires children[|verdicts|].JObject? && verdict != Limit && verdict == expected[|verdicts|]
    ensures var count := if verdict == Accept then matches + 1 else matches;
            if keyword == "anyOf" && verdict == Accept
               then ScanEnded(expected, children, keyword, false, verdicts + [verdict], count)
               else ScanSoFar(expected, children, keyword, verdicts + [verdict], count)
  {
    ScannedGrows(verdicts, children, expected, verdict);
  }

  lemma ScanStops(expected: seq<Verdict>, children: seq<Json>, keyword: string, verdicts: seq<Verdict>, matches: nat)
    requires ScanSoFar(expected, children, keyword, verdicts, matches)
    ensures |verdicts| < |children| && !children[|verdicts|].JObject? ==>
              ScanEnded(expected, children, keyword, true, verdicts, matches)
    ensures |verdicts| == |children| ==> ScanEnded(expected, children, keyword, false, verdicts, matches)
  {
  }

  /** Where a scan stops: at a malformed member, at the first match of anyOf, or at the end. */
  ghost predicate ScanEnded(
    expected: seq<Verdict>, children: seq<Json>, keyword: string, malformed: bool, verdicts: seq<Verdict>, matches: nat)
  {
    && Scanned(verdicts, children, expected)
    && matches == CountAccepted(verdicts)
    && (malformed ==> |verdicts| < |children| && !children[|verdicts|].JObject?)
    && (keyword == "anyOf" && (malformed || matches != 1) ==> matches == 0)
    && (!malformed && (keyword == "oneOf" || matches == 0) ==> |verdicts| == |children|)
  }

  lemma AlternativesDecided(
    d: Decision, schema: Node, keyword: string, value: Json, malformed: bool, verdicts: seq<Verdict>, matches: nat)
    requires keyword in schema && schema[keyword].JArray?
    requires var children := Members(schema, keyword);
             ScanEnded(MemberVerdicts(d, children, value), children, keyword, malformed, verdicts, matches)
    ensures keyword == "anyOf" && !malformed && matches > 0 ==> AnyOfAccepts(d, schema, value)
    ensures keyword == "anyOf" && (malformed || matches == 0) ==> AnyOfRejects(d, schema, value)
    ensures keyword == "oneOf" && !malformed && matches == 1 ==> OneOfAccepts(d, schema, value)
    ensures keyword == "oneOf" && (malformed || matches != 1) ==> OneOfRejects(d, schema, value)
  {
    CountedVerdicts(verdicts);
    MembersDecided(d, Members(schema, keyword), value);
  }

  /** A scan that accepts has paid for every member of oneOf, and for those of anyOf up to the first match. */
  lemma AlternativesPaid(below: Level, schema: Node, keyword: string, value: Json, verdicts: seq<Verdict>)
    requires keyword == "anyOf" || keyword == "oneOf"
    requires var children := Members(schema, keyword);
             ScanEnded(MemberVerdicts(below.decide, children, value), children, keyword, false, verdicts, 1)
    ensures AlternativesLeast(below.least, below.decide, schema, keyword, value)
         <= Total(MemberCosts(below.least, Members(schema, keyword), value), |verdicts|)
  {
    CountedVerdicts(verdicts);
    if keyword == "anyOf" {
      var i :| 0 <= i < |verdicts| && verdicts[i] == Accept;
      MemberVerdict(below.decide, Members(schema, keyword), value, i);
      UntilAcceptedIsPart(below.least, below.decide, Members(schema, keyword), value, i);
      TotalsGrow(MemberCosts(below.least, Members(schema, keyword), value), i + 1, |verdicts|);
    }
  }

  /** The verdicts of the children visited so far: schema objects, each decided. */
  ghost predicate Scanned(verdicts: seq<Verdict>, children: seq<Json>, expected: seq<Verdict>) {
    && |verdicts| <= |children| == |expected|
    && forall j | 0 <= j < |verdicts| :: children[j].JObject? && verdicts[j] != Limit && verdicts[j] == expected[j]
  }

  lemma ScannedGrows(verdicts: seq<Verdict>, children: seq<Json>, expected: seq<Verdict>, verdict: Verdict)
    requires Scanned(verdicts, children, expected) && |verdicts| < |children|
    requires children[|verdicts|].JObject? && verdict != Limit && verdict == expected[|verdicts|]
    ensures Scanned(verdicts + [verdict], children, expected)
    ensures CountAccepted(verdicts + [verdict]) == CountAccepted(verdicts) + (if verdict == Accept then 1 else 0)
  {
    assert (verdicts + [verdict])[..|verdicts|] == verdicts;
  }

  ghost function CountAccepted(verdicts: seq<Verdict>): nat {
    if verdicts == [] then 0
    else CountAccepted(verdicts[..|verdicts| - 1]) + (if verdicts[|verdicts| - 1] == Accept then 1 else 0)
  }

  lemma {:induction false} CountedVerdicts(verdicts: seq<Verdict>)
    requires forall j | 0 <= j < |verdicts| :: verdicts[j] != Limit
    ensures CountAccepted(verdicts) == 0 ==> forall j | 0 <= j < |verdicts| :: verdicts[j] == Reject
    ensures CountAccepted(verdicts) == 1 ==>
              exists i | 0 <= i < |verdicts| :: verdicts[i] == Accept && OthersReject(verdicts, i)
    ensures CountAccepted(verdicts) > 1 ==>
              exists i, j | 0 <= i < j < |verdicts| :: verdicts[i] == Accept && verdicts[j] == Accept
  {
    if verdicts != [] {
      var last := |verdicts| - 1;
      CountedVerdicts(verdicts[..last]);
      if CountAccepted(verdicts) == 1 {
        if verdicts[last] == Accept {
          assert OthersReject(verdicts, last);
        } else {
          var i :| 0 <= i < last && verdicts[..last][i] == Accept && OthersReject(verdicts[..last], i);
          assert OthersReject(verdicts, i);
        }
      } else if CountAccepted(verdicts) > 1 && verdicts[last] == Accept && CountAccepted(verdicts[..last]) == 1 {
        var i :| 0 <= i < last && verdicts[..last][i] == Accept && OthersReject(verdicts[..last], i);
        assert verdicts[i] == Accept;
      }
    }
  }

  ghost predicate OthersReject(verdicts: seq<Verdict>, i: nat) {
    forall j | 0 <= j < |verdicts| && j != i :: verdicts[j] == Reject
  }

  method ValidateNot(contract: Contract, schema: Node, value: Json, depth: nat, budget: Budget, ghost below: Level)
    returns (verdict: Verdict)
    requires budget.Valid() && !budget.exhausted && depth <= MAX_NESTING
    requires IsLevel(below, Levels(depth + 1), contract)
    modifies budget
    ensures Settled(verdict, budget, old(budget.remaining),
                    IfAccepted(verdict, NotWork(below.least, schema, value)),
                    NotWork(below.most, schema, value),
                    depth, contract, schema, value)
    ensures verdict != Limit ==> verdict == NotVerdict(below.decide, schema, value)
    decreases Levels(depth), 2
  {
    if "not" !in schema {
      return Accept;
    }
    if !schema["not"].JObject? {
      return Reject;
    }
    verdict := Apply(contract, schema["not"].fields, value, depth, budget, below);
    if verdict == Limit {
      assert IsChild(contract, schema, value, schema["not"].fields, value);
      return;
    }
    return if verdict == Accept then Reject else Accept;
  }

  method ValidateKind(contract: Contract, schema: Node, value: Json, depth: nat, budget: Budget, ghost below: Level)
    returns (verdict: Verdict)
    requires budget.Valid() && !budget.exhausted && depth <= MAX_NESTING
    requires IsLevel(below, Levels(depth + 1), contract)
    modifies budget
    ensures Settled(verdict, budget, old(budget.remaining),
                    IfAccepted(verdict, KindWork(below.least, schema, value)),
                    KindWork(below.most, schema, value),
                    depth, contract, schema, value)
    ensures verdict == Accept ==> KindAccepts(below.decide, contract, schema, value)
    ensures verdict == Reject ==> KindRejects(below.decide, contract, schema, value)
    decreases Levels(depth), 4
  {
    match value
    case JObject(fields) =>
      verdict := ValidateObject(contract, schema, value, depth, budget, below);
    case JArray(items) =>
      verdict := ValidateArray(contract, schema, value, depth, budget, below);
    case JString(s) =>
      return if StringHolds(contract, schema, s) then Accept else Reject;
    case JNumber(n) =>
      return if NumberHolds(schema, n) then Accept else Reject;
    case _ =>
      return Accept;
  }

  /** The fields are visited in an order that a map iteration picks. */
  method ValidateObject(contract: Contract, schema: Node, value: Json, depth: nat, budget: Budget, ghost below: Level)
    returns (verdict: Verdict)
    requires value.JObject?
    requires budget.Valid() && !budget.exhausted && depth <= MAX_NESTING
    requires IsLevel(below, Levels(depth + 1), contract)
    modifies budget
    ensures Settled(verdict, budget, old(budget.remaining),
                    IfAccepted(verdict, FieldsWork(below.least, schema, value.fields, value.fields.Keys)),
                    FieldsWork(below.most, schema, value.fields, value.fields.Keys),
                    depth, contract, schema, value)
    ensures verdict == Accept ==> ObjectAccepts(below.decide, schema, value.fields)
    ensures verdict == Reject ==> ObjectRejects(below.decide, schema, value.fields)
    decreases Levels(depth), 2
  {
    var fields := value.fields;
    ghost var d := below.decide;
    ghost var least, most := below.least, below.most;
    if !RequiredHolds(schema, fields) {
      return Reject;
    }
    var rest := fields.Keys;
    while rest != {}
      invariant rest <= fields.Keys
      invariant budget.Valid() && !budget.exhausted
      invariant FieldsPaid(old(budget.remaining), budget.remaining, least, most, schema, fields, rest)
      invariant forall name | name in fields && name !in rest :: FieldVerdict(d, schema, name, fields[name]) == Accept
    {
      var name :| name in rest;
      FieldsWorkSplits(least, schema, fields, rest, name);
      FieldsWorkSplits(most, schema, fields, rest, name);
      rest := rest - {name};
      verdict := ValidateField(contract, schema, value, name, depth, budget, below);
      if verdict != Accept {
        assert verdict == Reject ==> FieldVerdict(d, schema, name, fields[name]) == Reject;
        return;
      }
    }
    return if CountHolds(schema, |fields|, "minProperties", "maxProperties") then Accept else Reject;
  }

  /** One field: an unknown name is refused or skipped. */
  method ValidateField(
    contract: Contract, schema: Node, value: Json, name: string, depth: nat, budget: Budget, ghost below: Level)
    returns (verdict: Verdict)
    requires value.JObject? && name in value.fields
    requires budget.Valid() && !budget.exhausted && depth <= MAX_NESTING
    requires IsLevel(below, Levels(depth + 1), contract)
    modifies budget
    ensures Settled(verdict, budget, old(budget.remaining),
                    FieldWork(below.least, schema, name, value.fields[name]),
                    FieldWork(below.most, schema, name, value.fields[name]),
                    depth, contract, schema, value)
    ensures verdict != Limit ==> verdict == FieldVerdict(below.decide, schema, name, value.fields[name])
    decreases Levels(depth), 1
  {
    var properties, part := Properties(schema), value.fields[name];
    if name !in properties {
      return if Has(schema, "additionalProperties", JBool(false)) then Reject else Accept;
    }
    if !properties[name].JObject? {
      return Reject;
    }
    verdict := Apply(contract, properties[name].fields, part, depth, budget, below);
    assert IsFieldChild(schema, value.fields, name, properties[name].fields, part);
    NestsBelow(contract, schema, value, properties[name].fields, part, depth);
  }

  method ValidateArray(contract: Contract, schema: Node, value: Json, depth: nat, budget: Budget, ghost below: Level)
    returns (verdict: Verdict)
    requires value.JArray?
    requires budget.Valid() && !budget.exhausted && depth <= MAX_NESTING
    requires IsLevel(below, Levels(depth + 1), contract)
    modifies budget
    ensures Settled(verdict, budget, old(budget.remaining),
                    IfAccepted(verdict, KindWork(below.least, schema, value)),
                    KindWork(below.most, schema, value),
                    depth, contract, schema, value)
    ensures verdict == Accept ==> ArrayAccepts(below.decide, schema, value.items)
    ensures verdict == Reject ==> ArrayRejects(below.decide, schema, value.items)
    decreases Levels(depth), 3
  {
    var items := value.items;
    if !CountHolds(schema, |items|, "minItems", "maxItems") {
      return Reject;
    }
    if Has(schema, "uniqueItems", JBool(true)) {
      var distinct := AllDistinct(items);
      if !distinct {
        return Reject;
      }
    }
    if "items" !in schema {
      return Accept;
    }
    if !schema["items"].JObject? {
      return Reject;
    }
    verdict := ValidateItems(contract, schema, value, depth, budget, below);
    ItemsDecided(below.decide, schema["items"].fields, items);
  }

  ghost function ItemVerdicts(d: Decision, inner: Node, items: seq<Json>): (verdicts: seq<Verdict>)
    ensures |verdicts| == |items|
  {
    if items == [] then [] else [d(inner, items[0])] + ItemVerdicts(d, inner, items[1..])
  }

  lemma {:induction false} ItemVerdict(d: Decision, inner: Node, items: seq<Json>, i: nat)
    requires i < |items|
    ensures ItemVerdicts(d, inner, items)[i] == d(inner, items[i])
    decreases i
  {
    if i > 0 {
      ItemVerdict(d, inner, items[1..], i - 1);
    }
  }

  lemma ItemsDecided(d: Decision, inner: Node, items: seq<Json>)
    ensures var verdicts := ItemVerdicts(d, inner, items);
            && (AllAccepted(verdicts, |verdicts|) ==> forall i | 0 <= i < |items| :: d(inner, items[i]) == Accept)
            && (SomeRejected(verdicts) ==> exists i | 0 <= i < |items| :: d(inner, items[i]) == Reject)
  {
    forall i | 0 <= i < |items| ensures ItemVerdicts(d, inner, items)[i] == d(inner, items[i]) {
      ItemVerdict(d, inner, items, i);
    }
  }

  method ValidateItem(
    contract: Contract, schema: Node, value: Json, i: nat, depth: nat, budget: Budget, ghost below: Level)
    returns (verdict: Verdict)
    requires value.JArray? && i < |value.items| && "items" in schema && schema["items"].JObject?
    requires budget.Valid() && !budget.exhausted && depth <= MAX_NESTING
    requires IsLevel(below, Levels(depth + 1), contract)
    modifies budget
    ensures Settled(verdict, budget, old(budget.remaining),
                    ItemCosts(below.least, schema["items"].fields, value.items)[i],
                    ItemCosts(below.most, schema["items"].fields, value.items)[i],
                    depth, contract, schema, value)
    ensures verdict != Limit ==> verdict == ItemVerdicts(below.decide, schema["items"].fields, value.items)[i]
    decreases Levels(depth), 1
  {
    var inner, items := schema["items"].fields, value.items;
    ItemVerdict(below.decide, inner, items, i);
    ItemCost(below.least, inner, items, i);
    ItemCost(below.most, inner, items, i);
    verdict := Apply(contract, inner, items[i], depth, budget, below);
    NestsBelow(contract, schema, value, inner, items[i], depth);
  }

  /** The items one after the other, until one is not accepted. */
  method ValidateItems(contract: Contract, schema: Node, value: Json, depth: nat, budget: Budget, ghost below: Level)
    returns (verdict: Verdict)
    requires value.JArray? && "items" in schema && schema["items"].JObject?
    requires budget.Valid() && !budget.exhausted && depth <= MAX_NESTING
    requires IsLevel(below, Levels(depth + 1), contract)
    modifies budget
    ensures Settled(verdict, budget, old(budget.remaining),
                    IfAccepted(verdict, ItemsWork(below.least, schema["items"].fields, value.items)),
                    ItemsWork(below.most, schema["items"].fields, value.items),
                    depth, contract, schema, value)
    ensures var verdicts := ItemVerdicts(below.decide, schema["items"].fields, value.items);
            && (verdict == Accept ==> AllAccepted(verdicts, |verdicts|))
            && (verdict == Reject ==> SomeRejected(verdicts))
    decreases Levels(depth), 2
  {
    var inner, items := schema["items"].fields, value.items;
    ghost var verdicts := ItemVerdicts(below.decide, inner, items);
    ghost var least, most := ItemCosts(below.least, inner, items), ItemCosts(below.most, inner, items);
    TotalsGrow(most, 0, |most|);
    for i := 0 to |items|
      invariant budget.Valid() && !budget.exhausted
      invariant Paid(old(budget.remaining), budget.remaining, least, most, i)
      invariant AllAccepted(verdicts, i)
    {
      ghost var between := budget.remaining;
      verdict := ValidateItem(contract, schema, value, i, depth, budget, below);
      PaidGrows(old(budget.remaining), between, budget.remaining, least, most, i);
      if verdict != Accept {
        return;
      }
    }
    return Accept;
  }

  /** The entry point: whatever it decides is the schema's meaning, and it gives up only for one of the two limits. */
  method ValidateJsonValue(contract: Contract, schema: Node, value: Json) returns (verdict: Verdict, ghost steps: nat)
    ensures verdict != Limit ==> Means(contract, schema, value, verdict)
    ensures verdict != Limit ==>
              Least(MAX_NESTING + 1, contract)(schema, value) <= steps <= Work(MAX_NESTING + 1, contract)(schema, value)
    ensures verdict == Limit ==>
              || (steps == MAX_STEPS && MAX_STEPS < Work(MAX_NESTING + 1, contract)(schema, value))
              || Nests(MAX_NESTING + 1, contract, schema, value)
    ensures steps <= MAX_STEPS
  {
    var budget := new Budget(MAX_STEPS);
    verdict := Validate(contract, schema, value, 0, budget);
    steps := MAX_STEPS - budget.remaining;
    assert verdict != Limit ==> Decide(Levels(0), contract)(schema, value) == verdict;
  }

  /** Budgets, start depths and iteration orders that both avoid the limit error cannot disagree. */
  method TwoEvaluationsAgree(
    contract: Contract, schema: Node, value: Json, firstLimit: nat, firstDepth: nat, secondLimit: nat, secondDepth: nat)
    returns (first: Verdict, second: Verdict)
    ensures first != Limit && second != Limit ==> first == second
  {
    var firstBudget := new Budget(firstLimit);
    var secondBudget := new Budget(secondLimit);
    first := Validate(contract, schema, value, firstDepth, firstBudget);
    second := Validate(contract, schema, value, secondDepth, secondBudget);
    if first != Limit && second != Limit {
      assert Decide(Levels(firstDepth), contract)(schema, value) == first;
      assert Decide(Levels(secondDepth), contract)(schema, value) == second;
      MeaningIsUnique(contract, schema, value, first, second);
    }
  }
}
