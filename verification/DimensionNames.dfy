/** The texts of dimension names: trimming, and the form under which two names count as the same. */
module DimensionTexts {
  import opened Trimming

  /** The character tables of the language runtime. */
  datatype Unicode = Unicode(space: char -> bool, lower: string -> string) {
    predicate Valid() {
      !space(DEFAULT_RATIONALE[0])
    }
  }

  const DEFAULT_RATIONALE: string := "生成后的 DIM 表名重复："

  function ReplaceCharacter(c: char): string {
    if c in " \t\n\r_-" then ""
    else if c == '（' then "("
    else if c == '）' then ")"
    else [c]
  }

  function ReplaceCharacters(s: string): string {
    if s == "" then "" else ReplaceCharacter(s[0]) + ReplaceCharacters(s[1..])
  }

  function TrimSuffix(s: string, suffix: string): string {
    if |suffix| <= |s| && s[|s| - |suffix|..] == suffix then s[..|s| - |suffix|] else s
  }

  /** The form under which two names count as the same. */
  function NormalizedName(unicode: Unicode, name: string): string {
    var folded := ReplaceCharacters(unicode.lower(TrimSpace(unicode.space, name)));
    var bare := TrimSuffix(TrimSuffix(TrimSuffix(folded, "数据表"), "维度表"), "dim表");
    TrimSpace(unicode.space, TrimSuffix(TrimSuffix(bare, "表"), "维度"))
  }

  /** How texts are trimmed and names compared; the grouping depends on nothing else. */
  datatype Naming = Naming(trim: string -> string, normalize: string -> string) {
    /** Trimming is idempotent and leaves a default rationale for a normalized name alone. */
    ghost predicate Valid() {
      && trim("") == "" && (forall s :: trim(trim(s)) == trim(s))
      && (forall s :: normalize(s) != "" ==>
            trim(DEFAULT_RATIONALE + normalize(s)) == DEFAULT_RATIONALE + normalize(s))
    }
  }

  function NamingOf(unicode: Unicode): Naming {
    Naming(s => TrimSpace(unicode.space, s), s => NormalizedName(unicode, s))
  }

  lemma NormalizedNameIsTrimmed(unicode: Unicode, name: string)
    ensures Trimmed(unicode.space, NormalizedName(unicode, name))
  {
    var folded := ReplaceCharacters(unicode.lower(TrimSpace(unicode.space, name)));
    var bare := TrimSuffix(TrimSuffix(TrimSuffix(folded, "数据表"), "维度表"), "dim表");
    TrimSpaceTrims(unicode.space, TrimSuffix(TrimSuffix(bare, "表"), "维度"));
  }

  lemma NamingIsValid(unicode: Unicode)
    requires unicode.Valid()
    ensures NamingOf(unicode).Valid()
  {
    forall s ensures TrimSpace(unicode.space, TrimSpace(unicode.space, s)) == TrimSpace(unicode.space, s) {
      TrimSpaceTrims(unicode.space, s);
      TrimSpaceTrims(unicode.space, TrimSpace(unicode.space, s));
    }
    forall s | NormalizedName(unicode, s) != ""
      ensures TrimSpace(unicode.space, DEFAULT_RATIONALE + NormalizedName(unicode, s))
           == DEFAULT_RATIONALE + NormalizedName(unicode, s)
    {
      DefaultIsTrimmed(unicode, NormalizedName(unicode, s)) by { NormalizedNameIsTrimmed(unicode, s); }
    }
  }

  lemma DefaultIsTrimmed(unicode: Unicode, name: string)
    requires unicode.Valid() && name != "" && Trimmed(unicode.space, name)
    ensures TrimSpace(unicode.space, DEFAULT_RATIONALE + name) == DEFAULT_RATIONALE + name
  {
    var text := DEFAULT_RATIONALE + name;
    assert text[0] == DEFAULT_RATIONALE[0] && text[|text| - 1] == name[|name| - 1];
    TrimSpaceTrims(unicode.space, text);
  }
}

/** Duplicate names among generated dimension tables: the groups a plan is completed to. */
module DimensionNames {
  import opened Prelude
  import opened Strings
  import opened Sorting
  import opened DimensionTexts

  datatype Candidate = Candidate(version: string, name: string)
  datatype Group = Group(versions: seq<string>, rationale: string)

  function NonEmpty(naming: Naming, values: seq<string>): seq<string> {
    if values == [] then []
    else
      var value := naming.trim(values[0]);
      (if value == "" then [] else [value]) + NonEmpty(naming, values[1..])
  }

  function UniqueSorted(naming: Naming, values: seq<string>): (sorted: seq<string>)
    ensures Ascending(sorted)
  {
    SortDistinct(NonEmpty(naming, values))
  }

  /** Distinct trimmed values that are not empty, in ascending order. */
  method UniqueSortedNonEmpty(naming: Naming, values: seq<string>) returns (sorted: seq<string>)
    ensures sorted == UniqueSorted(naming, values)
  {
    var result: seq<string>, seen: set<string> := [], {};
    for i := 0 to |values|
      invariant forall x :: x in seen <==> x in result
      invariant forall x :: x in NonEmpty(naming, values) <==> x in result || x in NonEmpty(naming, values[i..])
    {
      var value := naming.trim(values[i]);
      assert values[i..][1..] == values[i + 1..];
      if value != "" && value !in seen {
        seen := seen + {value};
        result := result + [value];
      }
    }
    sorted := SortDistinct(result);
    LessIsStrictOrder();
    SortedIsUnique(sorted, UniqueSorted(naming, values), Less);
  }

  lemma {:induction false} TrimmedValuesStay(naming: Naming, values: seq<string>)
    requires forall x | x in values :: x != "" && naming.trim(x) == x
    ensures forall x :: x in NonEmpty(naming, values) <==> x in values
    ensures Ascending(values) ==> UniqueSorted(naming, values) == values
    decreases |values|
  {
    if values != [] {
      assert forall x | x in values[1..] :: x in values;
      TrimmedValuesStay(naming, values[1..]);
    }
    if Ascending(values) {
      LessIsStrictOrder();
      SortedIsUnique(UniqueSorted(naming, values), values, Less);
    }
  }

  // ---- Classes ----------------------------------------------------------------------------------------------------

  /** Distinct version identifiers, written as uuid text is: neither spaces nor separators. */
  ghost predicate ValidCandidates(naming: Naming, candidates: seq<Candidate>) {
    && (forall i, j | 0 <= i < j < |candidates| :: candidates[i].version != candidates[j].version)
    && (forall i | 0 <= i < |candidates| ::
          naming.trim(candidates[i].version) == candidates[i].version && '\0' !in candidates[i].version
              && candidates[i].version != "")
  }

  /** The versions of the candidates under one normalized name. */
  ghost function Class(naming: Naming, candidates: seq<Candidate>, name: string): set<string> {
    set i | 0 <= i < |candidates| && naming.normalize(candidates[i].name) == name :: candidates[i].version
  }

  ghost predicate IsDuplicated(naming: Naming, candidates: seq<Candidate>, name: string) {
    name != "" && |Class(naming, candidates, name)| >= 2
  }

  lemma ClassesAreDisjoint(naming: Naming, candidates: seq<Candidate>, name: string, other: string, version: string)
    requires ValidCandidates(naming, candidates)
    requires version in Class(naming, candidates, name) && version in Class(naming, candidates, other)
    ensures name == other
  {
  }

  // ---- Accepting a plan ---------------------------------------------------------------------------------------------

  predicate IsVersion(candidates: seq<Candidate>, version: string) {
    exists i :: 0 <= i < |candidates| && candidates[i].version == version
  }

  ghost function NameOf(naming: Naming, candidates: seq<Candidate>, version: string): string {
    if !IsVersion(candidates, version) then ""
    else
      var i :| 0 <= i < |candidates| && candidates[i].version == version;
      naming.normalize(candidates[i].name)
  }

  lemma NameOfCandidate(naming: Naming, candidates: seq<Candidate>, i: nat)
    requires ValidCandidates(naming, candidates) && i < |candidates|
    ensures NameOf(naming, candidates, candidates[i].version) == naming.normalize(candidates[i].name)
  {
    var j :| 0 <= j < |candidates| && candidates[j].version == candidates[i].version
             && NameOf(naming, candidates, candidates[i].version) == naming.normalize(candidates[j].name);
    assert i == j;
  }

  function Versions(naming: Naming, group: Group): seq<string> {
    UniqueSorted(naming, group.versions)
  }

  ghost function GroupName(naming: Naming, candidates: seq<Candidate>, group: Group): string {
    if Versions(naming, group) == [] then "" else NameOf(naming, candidates, Versions(naming, group)[0])
  }

  /** At least two known versions, all under one name, and a reason. */
  ghost predicate AcceptableGroup(naming: Naming, candidates: seq<Candidate>, group: Group) {
    var versions := Versions(naming, group);
    && |versions| >= 2 && naming.trim(group.rationale) != ""
    && GroupName(naming, candidates, group) != ""
    && forall version | version in versions ::
         IsVersion(candidates, version)
         && NameOf(naming, candidates, version) == GroupName(naming, candidates, group)
  }

  ghost predicate Apart(naming: Naming, group: Group, other: Group) {
    forall version :: !(version in Versions(naming, group) && version in Versions(naming, other))
  }

  ghost predicate Acceptable(naming: Naming, candidates: seq<Candidate>, plan: seq<Group>) {
    && (forall k | 0 <= k < |plan| :: AcceptableGroup(naming, candidates, plan[k]))
    && (forall k, l | 0 <= k < l < |plan| :: Apart(naming, plan[k], plan[l]))
  }

  /** The reason a plan gives for a name: that of the last group under it, or none. */
  ghost function PlannedRationale(naming: Naming, candidates: seq<Candidate>, plan: seq<Group>, name: string): string {
    if plan == [] then ""
    else
      var last := plan[|plan| - 1];
      if GroupName(naming, candidates, last) == name then naming.trim(last.rationale)
      else PlannedRationale(naming, candidates, plan[..|plan| - 1], name)
  }

  ghost predicate Indexes(naming: Naming, candidates: seq<Candidate>, byVersion: map<string, Candidate>) {
    && (forall version :: version in byVersion <==> IsVersion(candidates, version))
    && (forall version | version in byVersion ::
          naming.normalize(byVersion[version].name) == NameOf(naming, candidates, version))
  }

  method IndexCandidates(naming: Naming, candidates: seq<Candidate>) returns (byVersion: Option<map<string, Candidate>>)
    requires forall i, j | 0 <= i < j < |candidates| :: candidates[i].version != candidates[j].version
    ensures byVersion.None? <==> IsVersion(candidates, "")
    ensures byVersion.Some? && ValidCandidates(naming, candidates) ==> Indexes(naming, candidates, byVersion.value)
  {
    var index: map<string, Candidate> := map[];
    for i := 0 to |candidates|
      invariant forall j | 0 <= j < i :: candidates[j].version != ""
      invariant forall j | 0 <= j < i :: candidates[j].version in index && index[candidates[j].version] == candidates[j]
      invariant forall version | version in index :: exists j :: 0 <= j < i && candidates[j].version == version
    {
      if candidates[i].version == "" {
        return None;
      }
      index := index[candidates[i].version := candidates[i]];
    }
    byVersion := Some(index);
    if ValidCandidates(naming, candidates) {
      forall version | version in index
        ensures naming.normalize(index[version].name) == NameOf(naming, candidates, version)
      {
        var j :| 0 <= j < |candidates| && candidates[j].version == version;
        NameOfCandidate(naming, candidates, j);
      }
    }
  }

  ghost predicate Fits(naming: Naming, candidates: seq<Candidate>, seen: set<string>, name: string, version: string) {
    version !in seen && IsVersion(candidates, version) && NameOf(naming, candidates, version) == name && name != ""
  }

  ghost predicate AllFit(
    naming: Naming, candidates: seq<Candidate>, seen: set<string>, name: string, versions: seq<string>)
  {
    forall j | 0 <= j < |versions| :: Fits(naming, candidates, seen, name, versions[j])
  }

  ghost predicate NewlyAcceptable(naming: Naming, candidates: seq<Candidate>, group: Group, seen: set<string>) {
    AcceptableGroup(naming, candidates, group)
    && forall version | version in Versions(naming, group) :: version !in seen
  }

  lemma AcceptableWhenAllFit(naming: Naming, candidates: seq<Candidate>, group: Group, seen: set<string>)
    requires |Versions(naming, group)| >= 2 && naming.trim(group.rationale) != ""
    ensures var versions := Versions(naming, group);
            NewlyAcceptable(naming, candidates, group, seen) <==>
              AllFit(naming, candidates, seen, GroupName(naming, candidates, group), versions)
  {
    var versions := Versions(naming, group);
    assert forall version | version in versions :: exists j :: 0 <= j < |versions| && versions[j] == version;
    assert versions[0] in versions;
  }

  function Elements(s: seq<string>): set<string> {
    set x | x in s
  }

  /** The versions of one group must be new, known and of one name. */
  method CheckVersions(
    naming: Naming, candidates: seq<Candidate>, byVersion: map<string, Candidate>, versions: seq<string>,
    seen: set<string>)
    returns (ok: bool, name: string, after: set<string>)
    requires Indexes(naming, candidates, byVersion) && Ascending(versions) && |versions| > 0
    ensures ok <==> AllFit(naming, candidates, seen, NameOf(naming, candidates, versions[0]), versions)
    ensures ok ==> name == NameOf(naming, candidates, versions[0])
    ensures ok ==> after == seen + Elements(versions)
  {
    name, after := "", seen;
    ghost var first := NameOf(naming, candidates, versions[0]);
    for i := 0 to |versions|
      invariant after == seen + Elements(versions[..i])
      invariant i > 0 ==> name == first
      invariant AllFit(naming, candidates, seen, first, versions[..i])
    {
      var version := versions[i];
      AscendingIsDistinct(versions, i);
      assert versions[..i + 1] == versions[..i] + [version];
      if version !in byVersion || version in after {
        assert !Fits(naming, candidates, seen, first, versions[i]);
        return false, name, after;
      }
      var found := naming.normalize(byVersion[version].name);
      if found == "" || (i > 0 && found != name) {
        assert !Fits(naming, candidates, seen, first, versions[i]);
        return false, name, after;
      }
      name, after := found, after + {version};
    }
    assert versions[..|versions|] == versions;
    ok := true;
  }

  lemma AscendingIsDistinct(s: seq<string>, i: nat)
    requires Ascending(s) && i < |s|
    ensures s[i] !in s[..i]
  {
    forall j | 0 <= j < i ensures s[j] != s[i] {
      LessIsStrict(s[j], s[i]);
    }
  }

  method CheckGroup(
    naming: Naming, candidates: seq<Candidate>, byVersion: map<string, Candidate>, group: Group, seen: set<string>)
    returns (ok: bool, name: string, after: set<string>)
    requires Indexes(naming, candidates, byVersion)
    ensures ok <==> NewlyAcceptable(naming, candidates, group, seen)
    ensures ok ==> name == GroupName(naming, candidates, group)
    ensures ok ==> after == seen + Elements(Versions(naming, group))
  {
    var versions := UniqueSortedNonEmpty(naming, group.versions);
    if |versions| < 2 || naming.trim(group.rationale) == "" {
      return false, "", seen;
    }
    AcceptableWhenAllFit(naming, candidates, group, seen);
    ok, name, after := CheckVersions(naming, candidates, byVersion, versions, seen);
  }

  /** The versions of the first groups of a plan. */
  ghost function SeenIn(naming: Naming, plan: seq<Group>): set<string> {
    set k, version | 0 <= k < |plan| && version in Versions(naming, plan[k]) :: version
  }

  lemma AcceptableGrows(naming: Naming, candidates: seq<Candidate>, plan: seq<Group>, group: Group)
    ensures Acceptable(naming, candidates, plan + [group]) <==>
              Acceptable(naming, candidates, plan)
              && NewlyAcceptable(naming, candidates, group, SeenIn(naming, plan))
    ensures SeenIn(naming, plan + [group]) == SeenIn(naming, plan) + Elements(Versions(naming, group))
  {
    SeenGrows(naming, plan, group);
    AcceptableWithOneMore(naming, candidates, plan, group);
    ApartFromSeen(naming, plan, group);
  }

  lemma SeenGrows(naming: Naming, plan: seq<Group>, group: Group)
    ensures SeenIn(naming, plan + [group]) == SeenIn(naming, plan) + Elements(Versions(naming, group))
  {
    var longer := plan + [group];
    assert longer[|plan|] == group;
    assert forall k | 0 <= k < |plan| :: longer[k] == plan[k];
  }

  lemma AcceptableWithOneMore(naming: Naming, candidates: seq<Candidate>, plan: seq<Group>, group: Group)
    ensures Acceptable(naming, candidates, plan + [group]) <==>
              Acceptable(naming, candidates, plan) && AcceptableGroup(naming, candidates, group)
              && forall k | 0 <= k < |plan| :: Apart(naming, plan[k], group)
  {
    var longer := plan + [group];
    assert longer[|plan|] == group;
    assert forall k | 0 <= k < |plan| :: longer[k] == plan[k];
  }

  lemma ApartFromSeen(naming: Naming, plan: seq<Group>, group: Group)
    ensures (forall k | 0 <= k < |plan| :: Apart(naming, plan[k], group)) <==>
              (forall version | version in Versions(naming, group) :: version !in SeenIn(naming, plan))
  {
  }

  lemma AcceptableStarts(naming: Naming, candidates: seq<Candidate>, plan: seq<Group>, count: nat)
    requires count <= |plan| && Acceptable(naming, candidates, plan)
    ensures Acceptable(naming, candidates, plan[..count])
  {
  }

  method CheckPlan(naming: Naming, candidates: seq<Candidate>, byVersion: map<string, Candidate>, plan: seq<Group>)
    returns (rationales: Option<map<string, string>>)
    requires Indexes(naming, candidates, byVersion)
    ensures rationales.Some? <==> Acceptable(naming, candidates, plan)
    ensures rationales.Some? ==>
              forall name :: (if name in rationales.value then rationales.value[name] else "")
                          == PlannedRationale(naming, candidates, plan, name)
  {
    var seen: set<string>, rationaleByName: map<string, string> := {}, map[];
    for i := 0 to |plan|
      invariant seen == SeenIn(naming, plan[..i]) && Acceptable(naming, candidates, plan[..i])
      invariant forall name :: (if name in rationaleByName then rationaleByName[name] else "")
                            == PlannedRationale(naming, candidates, plan[..i], name)
    {
      assert plan[..i + 1] == plan[..i] + [plan[i]];
      AcceptableGrows(naming, candidates, plan[..i], plan[i]);
      var ok, name, after := CheckGroup(naming, candidates, byVersion, plan[i], seen);
      if !ok {
        if Acceptable(naming, candidates, plan) {
          AcceptableStarts(naming, candidates, plan, i + 1);
        }
        return None;
      }
      seen, rationaleByName := after, rationaleByName[name := naming.trim(plan[i].rationale)];
      assert plan[..i + 1][..i] == plan[..i];
    }
    assert plan[..|plan|] == plan;
    rationales := Some(rationaleByName);
  }

  // ---- Completing a plan --------------------------------------------------------------------------------------------

  ghost function RationaleFor(naming: Naming, candidates: seq<Candidate>, plan: seq<Group>, name: string): string {
    var planned := PlannedRationale(naming, candidates, plan, name);
    if planned == "" then DEFAULT_RATIONALE + name else planned
  }

  /** The complete group of a name: all versions under it, whatever part of them the plan named. */
  ghost function GroupFor(naming: Naming, candidates: seq<Candidate>, plan: seq<Group>, name: string): Group {
    Group(SortedSet(Class(naming, candidates, name)), RationaleFor(naming, candidates, plan, name))
  }

  /** The versions joined by NUL, the order in which groups are kept. */
  function Key(versions: seq<string>): string {
    if versions == [] then "" else if |versions| == 1 then versions[0] else versions[0] + "\0" + Key(versions[1..])
  }

  const BY_KEY: (Group, Group) -> bool := (left: Group, right: Group) => Less(Key(left.versions), Key(right.versions))

  lemma ByKeyIsStrict()
    ensures Strict(BY_KEY)
  {
    forall x: Group, y: Group | BY_KEY(x, y) ensures !BY_KEY(y, x) {
      LessIsStrict(Key(x.versions), Key(y.versions));
    }
    forall x: Group, y: Group, z: Group | BY_KEY(x, y) && BY_KEY(y, z) ensures BY_KEY(x, z) {
      LessIsTransitive(Key(x.versions), Key(y.versions), Key(z.versions));
    }
  }

  ghost predicate KeysAscend(groups: seq<Group>) {
    Sorted(groups, BY_KEY)
  }

  /** Exactly the complete groups of the duplicated names, in the order of their keys. */
  ghost predicate IsCanonical(naming: Naming, candidates: seq<Candidate>, plan: seq<Group>, groups: seq<Group>) {
    && KeysAscend(groups)
    && (forall k | 0 <= k < |groups| :: IsGroupOfDuplicates(naming, candidates, plan, groups[k]))
    && (forall name | IsDuplicated(naming, candidates, name) :: GroupFor(naming, candidates, plan, name) in groups)
  }

  ghost predicate IsGroupOfDuplicates(naming: Naming, candidates: seq<Candidate>, plan: seq<Group>, group: Group) {
    exists name :: IsDuplicated(naming, candidates, name) && group == GroupFor(naming, candidates, plan, name)
  }

  function Field(s: string): string {
    if s == "" || s[0] == '\0' then "" else [s[0]] + Field(s[1..])
  }

  lemma {:induction false} FieldOfKey(first: string, rest: string)
    requires '\0' !in first && (rest == "" || rest[0] == '\0')
    ensures Field(first + rest) == first
  {
    if first == "" {
      assert first + rest == rest;
    } else {
      assert (first + rest)[1..] == first[1..] + rest;
      FieldOfKey(first[1..], rest);
    }
  }

  lemma KeyTellsTheFirst(versions: seq<string>)
    requires versions != [] && '\0' !in versions[0]
    ensures Field(Key(versions)) == versions[0]
  {
    if |versions| == 1 {
      assert versions[0] + "" == versions[0];
      FieldOfKey(versions[0], "");
    } else {
      assert Key(versions) == versions[0] + ("\0" + Key(versions[1..]));
      FieldOfKey(versions[0], "\0" + Key(versions[1..]));
    }
  }

  lemma ClassVersions(naming: Naming, candidates: seq<Candidate>, name: string)
    requires ValidCandidates(naming, candidates)
    ensures var versions := SortedSet(Class(naming, candidates, name));
            && |versions| == |Class(naming, candidates, name)|
            && (forall version | version in versions ::
                  version != "" && naming.trim(version) == version && '\0' !in version
                  && IsVersion(candidates, version) && NameOf(naming, candidates, version) == name)
            && UniqueSorted(naming, versions) == versions
  {
    var versions := SortedSet(Class(naming, candidates, name));
    AscendingSize(versions, Class(naming, candidates, name));
    forall version | version in versions
      ensures version != "" && naming.trim(version) == version && '\0' !in version
              && IsVersion(candidates, version) && NameOf(naming, candidates, version) == name
    {
      var i :| 0 <= i < |candidates| && naming.normalize(candidates[i].name) == name
          && candidates[i].version == version;
      NameOfCandidate(naming, candidates, i);
    }
    TrimmedValuesStay(naming, versions);
  }

  /** Groups of different names have different keys, so their order is total. */
  lemma KeysTellGroupsApart(naming: Naming, candidates: seq<Candidate>, name: string, other: string)
    requires ValidCandidates(naming, candidates)
    requires IsDuplicated(naming, candidates, name) && IsDuplicated(naming, candidates, other)
    requires Key(SortedSet(Class(naming, candidates, name))) == Key(SortedSet(Class(naming, candidates, other)))
    ensures name == other
  {
    ClassVersions(naming, candidates, name);
    ClassVersions(naming, candidates, other);
    var left, right := SortedSet(Class(naming, candidates, name)), SortedSet(Class(naming, candidates, other));
    assert left[0] in left && right[0] in right;
    KeyTellsTheFirst(left);
    KeyTellsTheFirst(right);
  }

  /** The completion is unique: the candidates and the reasons leave no choice. */
  lemma CanonicalIsUnique(
    naming: Naming, candidates: seq<Candidate>, plan: seq<Group>, left: seq<Group>, right: seq<Group>)
    requires IsCanonical(naming, candidates, plan, left) && IsCanonical(naming, candidates, plan, right)
    ensures left == right
  {
    assert forall x :: x in left <==> x in right by {
      forall x | x in left ensures x in right {
        var k :| 0 <= k < |left| && left[k] == x;
        assert IsGroupOfDuplicates(naming, candidates, plan, left[k]);
      }
      forall x | x in right ensures x in left {
        var k :| 0 <= k < |right| && right[k] == x;
        assert IsGroupOfDuplicates(naming, candidates, plan, right[k]);
      }
    }
    ByKeyIsStrict();
    SortedIsUnique(left, right, BY_KEY);
  }

  // ---- The completion -----------------------------------------------------------------------------------------------

  method BuildClasses(naming: Naming, candidates: seq<Candidate>) returns (exact: map<string, seq<string>>)
    ensures forall name :: name in exact <==> name != "" && Class(naming, candidates, name) != {}
    ensures forall name | name in exact :: Elements(exact[name]) == Class(naming, candidates, name)
  {
    exact := map[];
    for i := 0 to |candidates|
      invariant HoldsClasses(naming, candidates[..i], exact)
    {
      var name := naming.normalize(candidates[i].name);
      OneMoreCandidate(naming, candidates, i, exact);
      if name != "" {
        exact := WithVersion(exact, name, candidates[i].version);
      }
    }
    assert candidates[..|candidates|] == candidates;
  }

  ghost predicate HoldsClasses(naming: Naming, candidates: seq<Candidate>, exact: map<string, seq<string>>) {
    && (forall name :: name in exact <==> name != "" && Class(naming, candidates, name) != {})
    && (forall name | name in exact :: Elements(exact[name]) == Class(naming, candidates, name))
  }

  function WithVersion(exact: map<string, seq<string>>, name: string, version: string): map<string, seq<string>> {
    exact[name := (if name in exact then exact[name] else []) + [version]]
  }

  lemma OneMoreCandidate(naming: Naming, candidates: seq<Candidate>, i: nat, exact: map<string, seq<string>>)
    requires i < |candidates| && HoldsClasses(naming, candidates[..i], exact)
    ensures var name := naming.normalize(candidates[i].name);
            HoldsClasses(naming, candidates[..i + 1],
              if name == "" then exact else WithVersion(exact, name, candidates[i].version))
  {
    ClassGrows(naming, candidates, i);
  }

  lemma ClassGrows(naming: Naming, candidates: seq<Candidate>, i: nat)
    requires i < |candidates|
    ensures forall name :: Class(naming, candidates[..i + 1], name) == Class(naming, candidates[..i], name)
                             + (if naming.normalize(candidates[i].name) == name then {candidates[i].version} else {})
  {
    assert candidates[..i + 1] == candidates[..i] + [candidates[i]];
    forall name ensures Class(naming, candidates[..i + 1], name) == Class(naming, candidates[..i], name)
                          + (if naming.normalize(candidates[i].name) == name then {candidates[i].version} else {})
    {
      assert forall j | 0 <= j < i :: candidates[..i + 1][j] == candidates[..i][j];
      assert candidates[..i + 1][i] == candidates[i];
    }
  }

  ghost predicate HoldsGroups(
    naming: Naming, candidates: seq<Candidate>, plan: seq<Group>, names: set<string>, groups: seq<Group>)
  {
    && KeysAscend(groups)
    && (forall group :: group in groups <==>
          exists name :: name in names && IsDuplicated(naming, candidates, name)
                         && group == GroupFor(naming, candidates, plan, name))
  }

  method AddGroup(
    naming: Naming, ghost candidates: seq<Candidate>, ghost plan: seq<Group>, ghost names: set<string>,
    groups: seq<Group>,
    name: string, listed: seq<string>, planned: string)
    returns (after: seq<Group>)
    requires ValidCandidates(naming, candidates) && HoldsGroups(naming, candidates, plan, names, groups)
    requires name !in names && name != "" && Elements(listed) == Class(naming, candidates, name)
    requires planned == PlannedRationale(naming, candidates, plan, name)
    ensures HoldsGroups(naming, candidates, plan, names + {name}, after)
  {
    var versions := UniqueSortedNonEmpty(naming, listed);
    ClassIsListed(naming, candidates, name, listed);
    GroupsGrow(naming, candidates, plan, names, groups, name);
    if |versions| < 2 {
      return groups;
    }
    var rationale := if planned != "" then planned else DEFAULT_RATIONALE + name;
    after := InsertInOrder(Group(versions, rationale), groups, BY_KEY);
  }

  /** Every class of two or more, with its planned reason or the default one, in the order of the keys. */
  method CollectGroups(
    naming: Naming, ghost candidates: seq<Candidate>, ghost plan: seq<Group>, exact: map<string, seq<string>>,
    rationales: map<string, string>)
    returns (groups: seq<Group>)
    requires ValidCandidates(naming, candidates)
    requires forall name | name in exact :: name != "" && Elements(exact[name]) == Class(naming, candidates, name)
    requires forall name :: (if name in rationales then rationales[name] else "")
                         == PlannedRationale(naming, candidates, plan, name)
    ensures HoldsGroups(naming, candidates, plan, exact.Keys, groups)
  {
    groups := [];
    var rest := exact.Keys;
    while rest != {}
      invariant rest <= exact.Keys
      invariant HoldsGroups(naming, candidates, plan, exact.Keys - rest, groups)
      decreases |rest|
    {
      var name :| name in rest;
      var planned := if name in rationales then rationales[name] else "";
      groups := AddGroup(naming, candidates, plan, exact.Keys - rest, groups, name, exact[name], planned);
      assert exact.Keys - (rest - {name}) == exact.Keys - rest + {name};
      rest := rest - {name};
    }
    assert exact.Keys - rest == exact.Keys;
  }

  lemma GroupsGrow(
    naming: Naming, candidates: seq<Candidate>, plan: seq<Group>, names: set<string>, groups: seq<Group>, name: string)
    requires ValidCandidates(naming, candidates) && HoldsGroups(naming, candidates, plan, names, groups)
    requires name !in names
    ensures !IsDuplicated(naming, candidates, name) ==> HoldsGroups(naming, candidates, plan, names + {name}, groups)
    ensures IsDuplicated(naming, candidates, name) ==>
              var group := GroupFor(naming, candidates, plan, name);
              && Strict(BY_KEY) && (forall other | other in groups :: BY_KEY(group, other) || BY_KEY(other, group))
              && HoldsGroups(naming, candidates, plan, names + {name}, InsertInOrder(group, groups, BY_KEY))
  {
    ByKeyIsStrict();
    if IsDuplicated(naming, candidates, name) {
      NewKey(naming, candidates, plan, names, groups, name);
    }
  }

  lemma ClassIsListed(naming: Naming, candidates: seq<Candidate>, name: string, listed: seq<string>)
    requires ValidCandidates(naming, candidates) && Elements(listed) == Class(naming, candidates, name)
    ensures UniqueSorted(naming, listed) == SortedSet(Class(naming, candidates, name))
    ensures |UniqueSorted(naming, listed)| == |Class(naming, candidates, name)|
  {
    ClassVersions(naming, candidates, name);
    assert forall x :: x in listed <==> x in Class(naming, candidates, name) by {
      assert forall x :: x in listed <==> x in Elements(listed);
    }
    TrimmedValuesStay(naming, listed);
    SortedSetIs(Class(naming, candidates, name), UniqueSorted(naming, listed));
  }

  lemma NewKey(
    naming: Naming, candidates: seq<Candidate>, plan: seq<Group>, names: set<string>, groups: seq<Group>, name: string)
    requires ValidCandidates(naming, candidates) && HoldsGroups(naming, candidates, plan, names, groups)
    requires name !in names && IsDuplicated(naming, candidates, name)
    ensures var group := GroupFor(naming, candidates, plan, name);
            forall other | other in groups :: BY_KEY(group, other) || BY_KEY(other, group)
  {
    var group := GroupFor(naming, candidates, plan, name);
    forall other | other in groups ensures BY_KEY(group, other) || BY_KEY(other, group) {
      var held :| held in names && IsDuplicated(naming, candidates, held)
                  && other == GroupFor(naming, candidates, plan, held);
      LessIsTotal(Key(group.versions), Key(other.versions));
      if Key(other.versions) == Key(group.versions) {
        KeysTellGroupsApart(naming, candidates, name, held);
      }
    }
  }

  /** Accepts a plan and completes it: exactly the classes of two or more, each whole. */
  method CanonicalizeNameValidation(naming: Naming, candidates: seq<Candidate>, plan: seq<Group>)
    returns (groups: Option<seq<Group>>)
    requires IsVersion(candidates, "") || ValidCandidates(naming, candidates)
    requires forall i, j | 0 <= i < j < |candidates| :: candidates[i].version != candidates[j].version
    ensures groups.Some? <==> !IsVersion(candidates, "") && Acceptable(naming, candidates, plan)
    ensures groups.Some? ==> IsCanonical(naming, candidates, plan, groups.value)
  {
    var byVersion := IndexCandidates(naming, candidates);
    if byVersion.None? {
      return None;
    }
    var rationales := CheckPlan(naming, candidates, byVersion.value, plan);
    if rationales.None? {
      return None;
    }
    var exact := BuildClasses(naming, candidates);
    var collected := CollectGroups(naming, candidates, plan, exact, rationales.value);
    CollectedAreCanonical(naming, candidates, plan, exact.Keys, collected);
    groups := Some(collected);
  }

  lemma CollectedAreCanonical(
    naming: Naming, candidates: seq<Candidate>, plan: seq<Group>, names: set<string>, groups: seq<Group>)
    requires HoldsGroups(naming, candidates, plan, names, groups)
    requires forall name :: name in names <==> name != "" && Class(naming, candidates, name) != {}
    ensures IsCanonical(naming, candidates, plan, groups)
  {
    forall k | 0 <= k < |groups| ensures IsGroupOfDuplicates(naming, candidates, plan, groups[k]) {
      assert groups[k] in groups;
    }
    forall name | IsDuplicated(naming, candidates, name) ensures GroupFor(naming, candidates, plan, name) in groups {
      assert name in names;
    }
  }

  // ---- What completion means ----------------------------------------------------------------------------------------

  ghost predicate InOneGroup(groups: seq<Group>, version: string, other: string) {
    exists k :: 0 <= k < |groups| && version in groups[k].versions && other in groups[k].versions
  }

  /** Two candidates share a group exactly when they share a name; so a candidate is in at most one group. */
  lemma GroupedExactlyByName(
    naming: Naming, candidates: seq<Candidate>, plan: seq<Group>, groups: seq<Group>, i: nat, j: nat)
    requires ValidCandidates(naming, candidates) && IsCanonical(naming, candidates, plan, groups)
    requires i < |candidates| && j < |candidates| && i != j
    ensures InOneGroup(groups, candidates[i].version, candidates[j].version)
       <==> naming.normalize(candidates[i].name) == naming.normalize(candidates[j].name) != ""
  {
    if naming.normalize(candidates[i].name) == naming.normalize(candidates[j].name) != "" {
      SameNameSameGroup(naming, candidates, plan, groups, i, j);
    }
    if InOneGroup(groups, candidates[i].version, candidates[j].version) {
      var k :| 0 <= k < |groups| && candidates[i].version in groups[k].versions
               && candidates[j].version in groups[k].versions;
      SameGroupSameName(naming, candidates, plan, groups[k], i, j);
    }
  }

  lemma SameNameSameGroup(
    naming: Naming, candidates: seq<Candidate>, plan: seq<Group>, groups: seq<Group>, i: nat, j: nat)
    requires ValidCandidates(naming, candidates) && IsCanonical(naming, candidates, plan, groups)
    requires i < |candidates| && j < |candidates| && i != j
    requires naming.normalize(candidates[i].name) == naming.normalize(candidates[j].name) != ""
    ensures InOneGroup(groups, candidates[i].version, candidates[j].version)
  {
    var name := naming.normalize(candidates[i].name);
    var members := Class(naming, candidates, name);
    assert candidates[i].version in members && candidates[j].version in members;
    TwoElements(members, candidates[i].version, candidates[j].version);
    assert IsDuplicated(naming, candidates, name);
    var k :| 0 <= k < |groups| && groups[k] == GroupFor(naming, candidates, plan, name);
  }

  lemma SameGroupSameName(naming: Naming, candidates: seq<Candidate>, plan: seq<Group>, group: Group, i: nat, j: nat)
    requires ValidCandidates(naming, candidates) && IsGroupOfDuplicates(naming, candidates, plan, group)
    requires i < |candidates| && j < |candidates|
    requires candidates[i].version in group.versions && candidates[j].version in group.versions
    ensures naming.normalize(candidates[i].name) == naming.normalize(candidates[j].name) != ""
  {
    var name :| IsDuplicated(naming, candidates, name) && group == GroupFor(naming, candidates, plan, name);
    MembersHaveTheName(naming, candidates, plan, name, i);
    MembersHaveTheName(naming, candidates, plan, name, j);
  }

  lemma MembersHaveTheName(naming: Naming, candidates: seq<Candidate>, plan: seq<Group>, name: string, i: nat)
    requires ValidCandidates(naming, candidates) && i < |candidates|
    requires candidates[i].version in GroupFor(naming, candidates, plan, name).versions
    ensures naming.normalize(candidates[i].name) == name
  {
    assert candidates[i].version in Class(naming, candidates, name);
    var k :| 0 <= k < |candidates| && naming.normalize(candidates[k].name) == name
             && candidates[k].version == candidates[i].version;
    assert k == i by {
      if k < i || i < k {
        assert false;
      }
    }
  }

  lemma TwoElements<T>(s: set<T>, x: T, y: T)
    requires x in s && y in s && x != y
    ensures |s| >= 2
  {
    assert {x, y} <= s;
    assert |s| == |{x, y}| + |s - {x, y}| by { assert s == {x, y} + (s - {x, y}); }
  }

  function Bare(groups: seq<Group>): (bare: seq<Group>)
    ensures |bare| == |groups|
  {
    seq(|groups|, i requires 0 <= i < |groups| => Group(groups[i].versions, ""))
  }

  ghost predicate IsBareGroup(naming: Naming, candidates: seq<Candidate>, group: Group) {
    exists name :: IsDuplicated(naming, candidates, name)
        && group == Group(SortedSet(Class(naming, candidates, name)), "")
  }

  lemma BareGroups(naming: Naming, candidates: seq<Candidate>, plan: seq<Group>, groups: seq<Group>)
    requires IsCanonical(naming, candidates, plan, groups)
    ensures KeysAscend(Bare(groups))
    ensures forall x :: x in Bare(groups) <==> IsBareGroup(naming, candidates, x)
  {
    forall x | x in Bare(groups) ensures IsBareGroup(naming, candidates, x) {
      var k :| 0 <= k < |groups| && Bare(groups)[k] == x;
      assert IsGroupOfDuplicates(naming, candidates, plan, groups[k]);
    }
    forall x | IsBareGroup(naming, candidates, x) ensures x in Bare(groups) {
      var name :| IsDuplicated(naming, candidates, name) && x == Group(SortedSet(Class(naming, candidates, name)), "");
      var k :| 0 <= k < |groups| && groups[k] == GroupFor(naming, candidates, plan, name);
      assert Bare(groups)[k] == x;
    }
  }

  lemma SameBareGroups(left: seq<Group>, right: seq<Group>)
    requires Bare(left) == Bare(right)
    ensures |left| == |right| && forall k | 0 <= k < |left| :: left[k].versions == right[k].versions
  {
    assert |left| == |Bare(left)| == |right|;
    assert forall k | 0 <= k < |left| :: Bare(left)[k] == Group(left[k].versions, "");
    assert forall k | 0 <= k < |right| :: Bare(right)[k] == Group(right[k].versions, "");
  }

  /** The plan supplies reasons only: the groups are the same whatever it proposed. */
  lemma GroupingIgnoresThePlan(
    naming: Naming, candidates: seq<Candidate>, plan: seq<Group>, other: seq<Group>, left: seq<Group>,
    right: seq<Group>)
    requires IsCanonical(naming, candidates, plan, left) && IsCanonical(naming, candidates, other, right)
    ensures |left| == |right| && forall k | 0 <= k < |left| :: left[k].versions == right[k].versions
  {
    assert Bare(left) == Bare(right) by {
      BareGroups(naming, candidates, plan, left);
      BareGroups(naming, candidates, other, right);
      ByKeyIsStrict();
      SortedIsUnique(Bare(left), Bare(right), BY_KEY);
    }
    SameBareGroups(left, right);
  }

  lemma RationaleIsTrimmed(naming: Naming, candidates: seq<Candidate>, plan: seq<Group>, name: string)
    requires naming.Valid() && IsDuplicated(naming, candidates, name)
    ensures var rationale := RationaleFor(naming, candidates, plan, name);
            naming.trim(rationale) == rationale != ""
  {
    PlannedIsTrimmed(naming, candidates, plan, name);
    var members := Class(naming, candidates, name);
    assert members != {};
    var version :| version in members;
    var i :| 0 <= i < |candidates| && naming.normalize(candidates[i].name) == name && candidates[i].version == version;
  }

  lemma {:induction false} PlannedIsTrimmed(naming: Naming, candidates: seq<Candidate>, plan: seq<Group>, name: string)
    requires naming.Valid()
    ensures var planned := PlannedRationale(naming, candidates, plan, name); naming.trim(planned) == planned
  {
    if plan != [] {
      PlannedIsTrimmed(naming, candidates, plan[..|plan| - 1], name);
    }
  }

  lemma CompleteGroupIsAcceptable(naming: Naming, candidates: seq<Candidate>, plan: seq<Group>, name: string)
    requires naming.Valid() && ValidCandidates(naming, candidates) && IsDuplicated(naming, candidates, name)
    ensures var group := GroupFor(naming, candidates, plan, name);
            && Versions(naming, group) == group.versions && AcceptableGroup(naming, candidates, group)
            && GroupName(naming, candidates, group) == name
  {
    ClassVersions(naming, candidates, name);
    RationaleIsTrimmed(naming, candidates, plan, name);
    var group := GroupFor(naming, candidates, plan, name);
    assert group.versions[0] in group.versions;
  }

  lemma {:induction false} PlannedByOneGroup(
    naming: Naming, candidates: seq<Candidate>, plan: seq<Group>, k: nat, name: string)
    requires k < |plan| && GroupName(naming, candidates, plan[k]) == name
    requires forall j | 0 <= j < |plan| && j != k :: GroupName(naming, candidates, plan[j]) != name
    ensures PlannedRationale(naming, candidates, plan, name) == naming.trim(plan[k].rationale)
  {
    if k < |plan| - 1 {
      PlannedByOneGroup(naming, candidates, plan[..|plan| - 1], k, name);
    }
  }

  lemma CanonicalNames(naming: Naming, candidates: seq<Candidate>, plan: seq<Group>, groups: seq<Group>, k: nat)
    returns (name: string)
    requires naming.Valid() && ValidCandidates(naming, candidates) && IsCanonical(naming, candidates, plan, groups)
    requires k < |groups|
    ensures IsDuplicated(naming, candidates, name) && groups[k] == GroupFor(naming, candidates, plan, name)
    ensures GroupName(naming, candidates, groups[k]) == name && AcceptableGroup(naming, candidates, groups[k])
    ensures Versions(naming, groups[k]) == groups[k].versions
  {
    assert IsGroupOfDuplicates(naming, candidates, plan, groups[k]);
    name :| IsDuplicated(naming, candidates, name) && groups[k] == GroupFor(naming, candidates, plan, name);
    CompleteGroupIsAcceptable(naming, candidates, plan, name);
  }

  lemma CanonicalNamesDiffer(
    naming: Naming, candidates: seq<Candidate>, plan: seq<Group>, groups: seq<Group>, k: nat, l: nat)
    requires naming.Valid() && ValidCandidates(naming, candidates) && IsCanonical(naming, candidates, plan, groups)
    requires k < l < |groups|
    ensures GroupName(naming, candidates, groups[k]) != GroupName(naming, candidates, groups[l])
    ensures Apart(naming, groups[k], groups[l])
  {
    var name := CanonicalNames(naming, candidates, plan, groups, k);
    var other := CanonicalNames(naming, candidates, plan, groups, l);
    ByKeyIsStrict();
    assert BY_KEY(groups[k], groups[l]);
    forall version | version in Versions(naming, groups[k]) && version in Versions(naming, groups[l]) ensures false {
      ClassesAreDisjoint(naming, candidates, name, other, version);
    }
  }

  /** A completed plan is accepted again and completes to itself, so a reloaded checkpoint reproduces the plan. */
  lemma CompletionIsIdempotent(naming: Naming, candidates: seq<Candidate>, plan: seq<Group>, groups: seq<Group>)
    requires naming.Valid() && ValidCandidates(naming, candidates) && IsCanonical(naming, candidates, plan, groups)
    ensures Acceptable(naming, candidates, groups) && IsCanonical(naming, candidates, groups, groups)
    ensures forall again | IsCanonical(naming, candidates, groups, again) :: again == groups
  {
    forall k | 0 <= k < |groups| ensures AcceptableGroup(naming, candidates, groups[k]) {
      var name := CanonicalNames(naming, candidates, plan, groups, k);
    }
    forall k, l | 0 <= k < l < |groups| ensures Apart(naming, groups[k], groups[l]) {
      CanonicalNamesDiffer(naming, candidates, plan, groups, k, l);
    }
    forall name | IsDuplicated(naming, candidates, name)
      ensures GroupFor(naming, candidates, groups, name) == GroupFor(naming, candidates, plan, name)
    {
      SameReason(naming, candidates, plan, groups, name);
    }
    forall k | 0 <= k < |groups| ensures IsGroupOfDuplicates(naming, candidates, groups, groups[k]) {
      var name := CanonicalNames(naming, candidates, plan, groups, k);
    }
    forall again | IsCanonical(naming, candidates, groups, again) ensures again == groups {
      CanonicalIsUnique(naming, candidates, groups, again, groups);
    }
  }

  lemma SameReason(naming: Naming, candidates: seq<Candidate>, plan: seq<Group>, groups: seq<Group>, name: string)
    requires naming.Valid() && ValidCandidates(naming, candidates) && IsCanonical(naming, candidates, plan, groups)
    requires IsDuplicated(naming, candidates, name)
    ensures RationaleFor(naming, candidates, groups, name) == RationaleFor(naming, candidates, plan, name)
  {
    CompleteGroupIsAcceptable(naming, candidates, plan, name);
    RationaleIsTrimmed(naming, candidates, plan, name);
    var k :| 0 <= k < |groups| && groups[k] == GroupFor(naming, candidates, plan, name);
    forall j | 0 <= j < |groups| && j != k ensures GroupName(naming, candidates, groups[j]) != name {
      if j < k {
        CanonicalNamesDiffer(naming, candidates, plan, groups, j, k);
      } else {
        CanonicalNamesDiffer(naming, candidates, plan, groups, k, j);
      }
    }
    PlannedByOneGroup(naming, candidates, groups, k, name);
  }
}
