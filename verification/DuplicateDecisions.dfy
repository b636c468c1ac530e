/** The decision on one group of duplicated dimension names. */
module DuplicateDecisions {
  import opened DimensionTexts
  import opened DimensionNames

  datatype SeparateName = SeparateName(version: string, finalName: string)

  datatype DuplicatePlan = DuplicatePlan(
    decision: string,
    canonical: string,
    finalName: string,
    finalDescription: string,
    separate: seq<SeparateName>,
    rationale: string)

  ghost predicate KeepsOne(naming: Naming, candidates: seq<Candidate>, plan: DuplicatePlan) {
    && IsVersion(candidates, plan.canonical) && plan.separate == []
    && naming.trim(plan.finalName) != "" && naming.trim(plan.finalDescription) != ""
  }

  /** Known versions, each named once, under names that stay apart. */
  ghost predicate NamesApart(naming: Naming, candidates: seq<Candidate>, separate: seq<SeparateName>) {
    && (forall k | 0 <= k < |separate| ::
          IsVersion(candidates, separate[k].version) && naming.normalize(separate[k].finalName) != "")
    && (forall k, l | 0 <= k < l < |separate| ::
          separate[k].version != separate[l].version
          && naming.normalize(separate[k].finalName) != naming.normalize(separate[l].finalName))
  }

  ghost predicate KeepsSeparate(naming: Naming, candidates: seq<Candidate>, plan: DuplicatePlan) {
    && plan.canonical == "" && plan.finalName == "" && plan.finalDescription == ""
    && |plan.separate| == |candidates| && NamesApart(naming, candidates, plan.separate)
  }

  method ValidateSeparateNames(
    naming: Naming, candidates: seq<Candidate>, separate: seq<SeparateName>) returns (ok: bool)
    ensures ok <==> NamesApart(naming, candidates, separate)
  {
    var seenVersions: set<string>, seenNames: set<string> := {}, {};
    for k := 0 to |separate|
      invariant seenVersions == set j | 0 <= j < k :: separate[j].version
      invariant seenNames == set j | 0 <= j < k :: naming.normalize(separate[j].finalName)
      invariant NamesApart(naming, candidates, separate[..k])
    {
      var item := separate[k];
      var name := naming.normalize(item.finalName);
      assert separate[..k + 1] == separate[..k] + [item];
      if !IsVersion(candidates, item.version) || item.version in seenVersions || name == "" || name in seenNames {
        return false;
      }
      seenVersions, seenNames := seenVersions + {item.version}, seenNames + {name};
    }
    assert separate[..|separate|] == separate;
    ok := true;
  }

  method ValidateDuplicateValidation(naming: Naming, candidates: seq<Candidate>, plan: DuplicatePlan) returns (ok: bool)
    ensures ok <==> naming.trim(plan.rationale) != ""
                    && ((plan.decision == "KEEP_ONE" && KeepsOne(naming, candidates, plan))
                        || (plan.decision == "KEEP_SEPARATE" && KeepsSeparate(naming, candidates, plan)))
  {
    if naming.trim(plan.rationale) == "" {
      return false;
    }
    if plan.decision == "KEEP_ONE" {
      return IsVersion(candidates, plan.canonical) && naming.trim(plan.finalName) != ""
             && naming.trim(plan.finalDescription) != "" && |plan.separate| == 0;
    }
    if plan.decision != "KEEP_SEPARATE" || plan.canonical != "" || plan.finalName != "" || plan.finalDescription != ""
       || |plan.separate| != |candidates| {
      return false;
    }
    ok := ValidateSeparateNames(naming, candidates, plan.separate);
  }

  /** Counting suffices: as many distinct known versions as candidates leave no candidate without its name. */
  lemma {:induction false} SeparateNamesCoverCandidates(
    naming: Naming, candidates: seq<Candidate>, separate: seq<SeparateName>, i: nat)
    returns (k: nat)
    requires forall a, b | 0 <= a < b < |candidates| :: candidates[a].version != candidates[b].version
    requires |separate| == |candidates| && NamesApart(naming, candidates, separate) && i < |candidates|
    ensures k < |separate| && separate[k].version == candidates[i].version
  {
    var last := |separate| - 1;
    if separate[last].version == candidates[i].version {
      k := last;
    } else {
      var j :| 0 <= j < |candidates| && candidates[j].version == separate[last].version;
      var others := Without(candidates, j);
      OthersAreNamed(naming, candidates, separate, j);
      k := SeparateNamesCoverCandidates(naming, others, separate[..last], if i < j then i else i - 1);
    }
  }

  function Without(candidates: seq<Candidate>, j: nat): (others: seq<Candidate>)
    requires j < |candidates|
    ensures |others| == |candidates| - 1
    ensures forall a | 0 <= a < |others| :: others[a] == candidates[if a < j then a else a + 1]
  {
    candidates[..j] + candidates[j + 1..]
  }

  lemma OthersAreNamed(naming: Naming, candidates: seq<Candidate>, separate: seq<SeparateName>, j: nat)
    requires separate != [] && NamesApart(naming, candidates, separate) && j < |candidates|
    requires candidates[j].version == separate[|separate| - 1].version
    ensures NamesApart(naming, Without(candidates, j), separate[..|separate| - 1])
  {
    var others, front := Without(candidates, j), separate[..|separate| - 1];
    forall m | 0 <= m < |front| ensures IsVersion(others, front[m].version) {
      assert IsVersion(candidates, separate[m].version);
      var a :| 0 <= a < |candidates| && candidates[a].version == separate[m].version;
      assert others[if a < j then a else a - 1] == candidates[a];
    }
  }
}
