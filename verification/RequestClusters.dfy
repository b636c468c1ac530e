/** Repeated detail requests, clustered by what they ask for. */
module RequestClusters {
  import opened Prelude
  import opened Strings
  import opened Sorting
  import opened FiniteSums

  const CLUSTER_WINDOW: int := 30 * 24 * 3600
  const CLUSTER_THRESHOLD: nat := 3
  const MAX_OBSERVATIONS: nat := 1_000_000
  const MAX_PURPOSES: nat := 5

  /** Instants count from the zero time. */
  const ZERO_TIME: int := 0

  datatype Key = Key(tenant: string, domain: string, metrics: seq<string>, dimensions: seq<string>, grain: string)

  datatype Observation = Observation(
    request: string,
    tenant: string,
    domain: string,
    requester: string,
    metrics: seq<string>,
    dimensions: seq<string>,
    grain: string,
    purpose: string,
    createdAt: int)

  /** What a valid observation contributes. */
  datatype Fact = Fact(hash: string, key: Key, requester: string, purpose: string, at: int)

  /** How observations are read; the clustering depends on nothing else. */
  type Reading = Observation -> Option<Fact>

  /** Equal hashes mean equal keys, and a fact keeps its observation's time. */
  ghost predicate IsFaithful(read: Reading) {
    && (forall o, p | read(o).Some? && read(p).Some? && read(o).value.hash == read(p).value.hash ::
          read(o).value.key == read(p).value.key)
    && (forall o | read(o).Some? :: read(o).value.at == o.createdAt)
  }

  datatype Candidate = Candidate(
    key: Key,
    hash: string,
    requests: nat,
    requesters: nat,
    purposes: seq<string>,
    first: int,
    last: int)

  // ---- Counting ---------------------------------------------------------------------------------------------------

  ghost function CountIf<T>(s: seq<T>, p: T -> bool): nat {
    if s == [] then 0 else CountIf(s[..|s| - 1], p) + (if p(s[|s| - 1]) then 1 else 0)
  }

  lemma {:induction false} CountOfBoth<T>(s: seq<T>, t: seq<T>, p: T -> bool)
    ensures CountIf(s + t, p) == CountIf(s, p) + CountIf(t, p)
    decreases |t|
  {
    if t == [] {
      assert s + t == s;
    } else {
      CountOfBoth(s, t[..|t| - 1], p);
      assert (s + t)[..|s + t| - 1] == s + t[..|t| - 1];
    }
  }

  lemma TakenOut<T>(s: seq<T>, i: nat)
    requires i < |s|
    ensures s == s[..i] + [s[i]] + s[i + 1..]
    ensures multiset(s[..i] + s[i + 1..]) == multiset(s) - multiset{s[i]}
  {
    assert s == s[..i] + [s[i]] + s[i + 1..];
    assert multiset(s) == multiset(s[..i] + s[i + 1..]) + multiset{s[i]};
  }

  lemma Removed<T>(s: seq<T>, t: seq<T>) returns (i: nat)
    requires s != [] && multiset(s) == multiset(t)
    ensures i < |t| && t[i] == s[|s| - 1]
    ensures multiset(s[..|s| - 1]) == multiset(t[..i] + t[i + 1..])
    ensures t == t[..i] + [t[i]] + t[i + 1..]
  {
    assert s[|s| - 1] in multiset(s);
    i :| 0 <= i < |t| && t[i] == s[|s| - 1];
    TakenOut(s, |s| - 1);
    TakenOut(t, i);
    assert s[..|s| - 1] + s[|s| - 1 + 1..] == s[..|s| - 1];
    assert multiset(t) - multiset{t[i]} == multiset(s) - multiset{s[|s| - 1]};
  }

  /** Counts do not depend on order. */
  lemma {:induction false} CountIgnoresOrder<T>(s: seq<T>, t: seq<T>, p: T -> bool)
    requires multiset(s) == multiset(t)
    ensures CountIf(s, p) == CountIf(t, p)
    decreases |s|
  {
    if s == [] {
      assert |multiset(t)| == 0;
    } else {
      var i := Removed(s, t);
      CountIgnoresOrder(s[..|s| - 1], t[..i] + t[i + 1..], p);
      CountOfBoth(t[..i], t[i + 1..], p);
      CountOfBoth(t[..i], [t[i]], p);
      CountOfBoth(t[..i] + [t[i]], t[i + 1..], p);
    }
  }

  // ---- Groups -----------------------------------------------------------------------------------------------------

  ghost function InGroup(hash: string): Fact -> bool {
    (fact: Fact) => fact.hash == hash
  }

  ghost function InGroupFor(hash: string, purpose: string): Fact -> bool {
    (fact: Fact) => fact.hash == hash && fact.purpose == purpose
  }

  ghost function Size(facts: seq<Fact>, hash: string): nat {
    CountIf(facts, InGroup(hash))
  }

  ghost function Requesters(facts: seq<Fact>, hash: string): set<string> {
    set fact | fact in facts && fact.hash == hash :: fact.requester
  }

  ghost function PurposeCounts(facts: seq<Fact>, hash: string): map<string, nat> {
    map purpose | purpose in Purposes(facts, hash) :: CountIf(facts, InGroupFor(hash, purpose))
  }

  ghost function Purposes(facts: seq<Fact>, hash: string): set<string> {
    set fact | fact in facts && fact.hash == hash :: fact.purpose
  }

  datatype Accumulator = Accumulator(
    key: Key,
    requesters: set<string>,
    purposes: map<string, nat>,
    count: nat,
    first: int,
    last: int)

  /** The group of one hash, as it stands after some facts; last starts from the zero time. */
  ghost predicate Describes(facts: seq<Fact>, hash: string, group: Accumulator) {
    DescribesTimes(facts, hash, group) && DescribesCounts(facts, hash, group)
  }

  ghost predicate DescribesCounts(facts: seq<Fact>, hash: string, group: Accumulator) {
    && group.count == Size(facts, hash) && group.requesters == Requesters(facts, hash)
    && group.purposes == PurposeCounts(facts, hash)
  }

  ghost predicate DescribesTimes(facts: seq<Fact>, hash: string, group: Accumulator) {
    && (forall fact | fact in facts && fact.hash == hash ::
          fact.key == group.key && group.first <= fact.at <= group.last)
    && (exists fact :: fact in facts && fact.hash == hash && fact.at == group.first)
    && (group.last == ZERO_TIME || exists fact :: fact in facts && fact.hash == hash && fact.at == group.last)
    && group.last >= ZERO_TIME
  }

  function Opened(fact: Fact): Accumulator {
    Accumulator(fact.key, {}, map[], 0, fact.at, ZERO_TIME)
  }

  function OneMoreFor(counts: map<string, nat>, purpose: string): map<string, nat> {
    counts[purpose := (if purpose in counts then counts[purpose] else 0) + 1]
  }

  function Added(group: Accumulator, fact: Fact): Accumulator {
    Accumulator(
      group.key,
      group.requesters + {fact.requester},
      OneMoreFor(group.purposes, fact.purpose),
      group.count + 1,
      if fact.at < group.first then fact.at else group.first,
      if fact.at > group.last then fact.at else group.last)
  }

  ghost predicate GroupsDescribe(facts: seq<Fact>, groups: map<string, Accumulator>) {
    && (forall hash :: hash in groups <==> Size(facts, hash) > 0)
    && (forall hash | hash in groups :: Describes(facts, hash, groups[hash]))
  }

  ghost predicate SameKeys(facts: seq<Fact>) {
    forall i, j | 0 <= i < |facts| && 0 <= j < |facts| && facts[i].hash == facts[j].hash :: facts[i].key == facts[j].key
  }

  lemma {:induction false} PositiveCount<T>(s: seq<T>, p: T -> bool)
    ensures CountIf(s, p) > 0 <==> exists i :: 0 <= i < |s| && p(s[i])
  {
    if s != [] {
      PositiveCount(s[..|s| - 1], p);
      assert forall i | 0 <= i < |s| - 1 :: s[..|s| - 1][i] == s[i];
    }
  }

  lemma OneMore(facts: seq<Fact>, fact: Fact, hash: string)
    ensures Size(facts + [fact], hash) == Size(facts, hash) + (if fact.hash == hash then 1 else 0)
    ensures fact.hash != hash ==> Requesters(facts + [fact], hash) == Requesters(facts, hash)
                                  && PurposeCounts(facts + [fact], hash) == PurposeCounts(facts, hash)
    ensures fact.hash == hash ==> Requesters(facts + [fact], hash) == Requesters(facts, hash) + {fact.requester}
                                  && Purposes(facts + [fact], hash) == Purposes(facts, hash) + {fact.purpose}
  {
    CountOfBoth(facts, [fact], InGroup(hash));
    forall purpose
      ensures CountIf(facts + [fact], InGroupFor(hash, purpose))
           == CountIf(facts, InGroupFor(hash, purpose))
              + (if fact.hash == hash && fact.purpose == purpose then 1 else 0)
    {
      CountOfBoth(facts, [fact], InGroupFor(hash, purpose));
    }
  }

  lemma CountGrows(facts: seq<Fact>, fact: Fact, purpose: string)
    ensures CountIf(facts + [fact], InGroupFor(fact.hash, purpose))
         == CountIf(facts, InGroupFor(fact.hash, purpose)) + (if fact.purpose == purpose then 1 else 0)
  {
    CountOfBoth(facts, [fact], InGroupFor(fact.hash, purpose));
    assert [fact][..0] == [];
  }

  lemma PurposesGrow(facts: seq<Fact>, fact: Fact)
    ensures PurposeCounts(facts + [fact], fact.hash) == OneMoreFor(PurposeCounts(facts, fact.hash), fact.purpose)
  {
    var left, right :=
        PurposeCounts(facts + [fact], fact.hash), OneMoreFor(PurposeCounts(facts, fact.hash), fact.purpose);
    assert left.Keys == right.Keys by { OneMore(facts, fact, fact.hash); }
    forall purpose | purpose in left ensures left[purpose] == right[purpose] {
      CountGrows(facts, fact, purpose);
      AbsentPurpose(facts, fact.hash, purpose);
    }
  }

  lemma AbsentPurpose(facts: seq<Fact>, hash: string, purpose: string)
    ensures purpose !in Purposes(facts, hash) ==> CountIf(facts, InGroupFor(hash, purpose)) == 0
  {
    PositiveCount(facts, InGroupFor(hash, purpose));
  }

  lemma AddingCounts(facts: seq<Fact>, fact: Fact, group: Accumulator)
    requires DescribesCounts(facts, fact.hash, group) || (Size(facts, fact.hash) == 0 && group == Opened(fact))
    ensures DescribesCounts(facts + [fact], fact.hash, Added(group, fact))
  {
    OneMore(facts, fact, fact.hash);
    PurposesGrow(facts, fact);
    if Size(facts, fact.hash) == 0 {
      PositiveCount(facts, InGroup(fact.hash));
      assert forall x | x in facts :: x.hash != fact.hash;
      assert Requesters(facts, fact.hash) == {} && PurposeCounts(facts, fact.hash) == map[];
    }
  }

  lemma AddingTimes(facts: seq<Fact>, fact: Fact, group: Accumulator)
    requires SameKeys(facts + [fact])
    requires DescribesTimes(facts, fact.hash, group)
             || ((forall x | x in facts :: x.hash != fact.hash) && group == Opened(fact))
    ensures DescribesTimes(facts + [fact], fact.hash, Added(group, fact))
  {
    var longer := facts + [fact];
    assert forall x :: x in longer <==> x in facts || x == fact;
    forall x | x in facts && x.hash == fact.hash ensures x.key == fact.key {
      var i :| 0 <= i < |facts| && facts[i] == x;
      assert longer[i].key == longer[|facts|].key;
    }
  }

  lemma AddingDescribes(facts: seq<Fact>, fact: Fact, group: Accumulator)
    requires SameKeys(facts + [fact])
    requires Describes(facts, fact.hash, group) || (Size(facts, fact.hash) == 0 && group == Opened(fact))
    ensures Describes(facts + [fact], fact.hash, Added(group, fact))
  {
    PositiveCount(facts, InGroup(fact.hash));
    AddingCounts(facts, fact, group);
    AddingTimes(facts, fact, group);
  }

  lemma OtherGroupsStay(facts: seq<Fact>, fact: Fact, hash: string, group: Accumulator)
    requires fact.hash != hash && Describes(facts, hash, group)
    ensures Describes(facts + [fact], hash, group)
  {
    OneMore(facts, fact, hash);
    assert forall x :: x in facts + [fact] <==> x in facts || x == fact;
  }

  function Grouped(groups: map<string, Accumulator>, fact: Fact): map<string, Accumulator> {
    groups[fact.hash := Added(if fact.hash in groups then groups[fact.hash] else Opened(fact), fact)]
  }

  lemma GroupingDescribes(facts: seq<Fact>, fact: Fact, groups: map<string, Accumulator>)
    requires SameKeys(facts + [fact]) && GroupsDescribe(facts, groups)
    ensures GroupsDescribe(facts + [fact], Grouped(groups, fact))
  {
    var after := Grouped(groups, fact);
    forall hash ensures hash in after <==> Size(facts + [fact], hash) > 0 {
      OneMore(facts, fact, hash);
    }
    forall hash | hash in after ensures Describes(facts + [fact], hash, after[hash]) {
      if hash == fact.hash {
        AddingDescribes(facts, fact, if hash in groups then groups[hash] else Opened(fact));
      } else {
        OtherGroupsStay(facts, fact, hash, groups[hash]);
      }
    }
  }

  // ---- Typical purposes --------------------------------------------------------------------------------------------

  function Rank(counts: map<string, nat>, purpose: string): (nat, string) {
    (if purpose in counts then counts[purpose] else 0, purpose)
  }

  const BY_RANK: ((nat, string), (nat, string)) -> bool :=
    (left: (nat, string), right: (nat, string)) => left.0 > right.0 || (left.0 == right.0 && Less(left.1, right.1))

  lemma ByRankIsStrict()
    ensures Strict(BY_RANK)
  {
    forall x: (nat, string), y: (nat, string) | BY_RANK(x, y) ensures !BY_RANK(y, x) {
      if x.0 == y.0 { LessIsStrict(x.1, y.1); }
    }
    forall x: (nat, string), y: (nat, string), z: (nat, string) | BY_RANK(x, y) && BY_RANK(y, z) ensures BY_RANK(x, z) {
      if x.0 == y.0 == z.0 { LessIsTransitive(x.1, y.1, z.1); }
    }
  }

  /** All purposes with their counts, the most frequent first and equals by name. */
  ghost predicate IsRanking(counts: map<string, nat>, ranked: seq<(nat, string)>) {
    && Sorted(ranked, BY_RANK)
    && forall item :: item in ranked <==> item.1 in counts && counts[item.1] == item.0
  }

  lemma RankingIsUnique(counts: map<string, nat>, left: seq<(nat, string)>, right: seq<(nat, string)>)
    requires IsRanking(counts, left) && IsRanking(counts, right)
    ensures left == right
  {
    ByRankIsStrict();
    SortedIsUnique(left, right, BY_RANK);
  }

  function Names(ranked: seq<(nat, string)>, limit: nat): seq<string> {
    seq(if |ranked| > limit then limit else |ranked|, i requires 0 <= i < |ranked| => ranked[i].1)
  }

  ghost predicate IsTypical(counts: map<string, nat>, limit: nat, purposes: seq<string>) {
    exists ranked :: IsRanking(counts, ranked) && purposes == Names(ranked, limit)
  }

  /** More frequent, or as frequent and first by name. */
  predicate Precedes(counts: map<string, nat>, left: string, right: string)
    requires left in counts && right in counts
  {
    counts[left] > counts[right] || (counts[left] == counts[right] && Less(left, right))
  }

  lemma RankedPurposes(counts: map<string, nat>, ranked: seq<(nat, string)>)
    requires IsRanking(counts, ranked)
    ensures forall i | 0 <= i < |ranked| :: ranked[i].1 in counts
    ensures forall i, j | 0 <= i < j < |ranked| :: Precedes(counts, ranked[i].1, ranked[j].1)
  {
    assert forall i | 0 <= i < |ranked| :: ranked[i] in ranked;
    forall i, j | 0 <= i < j < |ranked| ensures Precedes(counts, ranked[i].1, ranked[j].1) {
      assert BY_RANK(ranked[i], ranked[j]);
    }
  }

  /** The listed purposes precede one another and all that are left out, and none is left out below the limit. */
  lemma TypicalPrecedeOthers(counts: map<string, nat>, limit: nat, purposes: seq<string>)
    requires IsTypical(counts, limit, purposes)
    ensures |purposes| <= limit && forall i | 0 <= i < |purposes| :: purposes[i] in counts
    ensures forall i, j | 0 <= i < j < |purposes| :: Precedes(counts, purposes[i], purposes[j])
    ensures forall other, i | other in counts && other !in purposes && 0 <= i < |purposes| ::
              Precedes(counts, purposes[i], other)
    ensures forall other | other in counts && other !in purposes :: |purposes| == limit
  {
    var ranked: seq<(nat, string)> :| IsRanking(counts, ranked) && purposes == Names(ranked, limit);
    RankedPurposes(counts, ranked);
    forall other | other in counts && other !in purposes
      ensures |purposes| == limit
      ensures forall i | 0 <= i < |purposes| :: Precedes(counts, purposes[i], other)
    {
      assert (counts[other], other) in ranked;
      var j :| 0 <= j < |ranked| && ranked[j] == (counts[other], other);
      assert forall i | 0 <= i < |purposes| :: purposes[i] == ranked[i].1;
    }
  }

  method TypicalPurposes(counts: map<string, nat>, limit: nat) returns (purposes: seq<string>)
    ensures IsTypical(counts, limit, purposes)
    ensures forall other, i | other in counts && other !in purposes && 0 <= i < |purposes| ::
              purposes[i] in counts && counts[other] <= counts[purposes[i]]
  {
    var ranked: seq<(nat, string)> := [];
    var rest := counts.Keys;
    ByRankIsStrict();
    while rest != {}
      invariant rest <= counts.Keys && Sorted(ranked, BY_RANK)
      invariant forall item :: item in ranked <==> item.1 in counts.Keys - rest && counts[item.1] == item.0
      decreases |rest|
    {
      var purpose :| purpose in rest;
      forall item | item in ranked
        ensures BY_RANK(item, (counts[purpose], purpose)) || BY_RANK((counts[purpose], purpose), item)
      {
        LessIsTotal(item.1, purpose);
      }
      ranked := InsertInOrder((counts[purpose], purpose), ranked, BY_RANK);
      rest := rest - {purpose};
    }
    assert IsRanking(counts, ranked);
    purposes := Names(ranked, limit);
    TypicalPrecedeOthers(counts, limit, purposes);
  }

  // ---- Candidates --------------------------------------------------------------------------------------------------

  ghost predicate IsCandidateFor(hash: string, group: Accumulator, candidate: Candidate) {
    && candidate.key == group.key && candidate.hash == hash && candidate.requests == group.count
    && candidate.requesters == |group.requesters| && IsTypical(group.purposes, MAX_PURPOSES, candidate.purposes)
    && candidate.first == group.first && candidate.last == group.last
  }

  predicate Actionable(hash: string, group: Accumulator, existing: set<string>) {
    group.count >= CLUSTER_THRESHOLD && hash !in existing
  }

  const BY_HASH: (Candidate, Candidate) -> bool := (left: Candidate, right: Candidate) => Less(left.hash, right.hash)

  lemma ByHashIsStrict()
    ensures Strict(BY_HASH)
  {
    forall x: Candidate, y: Candidate | BY_HASH(x, y) ensures !BY_HASH(y, x) {
      LessIsStrict(x.hash, y.hash);
    }
    forall x: Candidate, y: Candidate, z: Candidate | BY_HASH(x, y) && BY_HASH(y, z) ensures BY_HASH(x, z) {
      LessIsTransitive(x.hash, y.hash, z.hash);
    }
  }

  /** One candidate for each actionable group, in the order of the hashes. */
  ghost predicate ListsCandidates(groups: map<string, Accumulator>, existing: set<string>, result: seq<Candidate>) {
    && Sorted(result, BY_HASH)
    && (forall candidate | candidate in result ::
          candidate.hash in groups && Actionable(candidate.hash, groups[candidate.hash], existing)
          && IsCandidateFor(candidate.hash, groups[candidate.hash], candidate))
    && (forall hash | hash in groups && Actionable(hash, groups[hash], existing) :: HasHash(result, hash))
  }

  ghost predicate HasHash(result: seq<Candidate>, hash: string) {
    exists candidate :: candidate in result && candidate.hash == hash
  }

  ghost function Part(groups: map<string, Accumulator>, hashes: set<string>): map<string, Accumulator> {
    map hash | hash in groups && hash in hashes :: groups[hash]
  }

  lemma ListGrows(
    groups: map<string, Accumulator>, existing: set<string>, hashes: set<string>, result: seq<Candidate>,
    candidate: Candidate)
    requires ListsCandidates(Part(groups, hashes), existing, result)
    requires candidate.hash in groups && candidate.hash !in hashes
    requires Actionable(candidate.hash, groups[candidate.hash], existing)
    requires IsCandidateFor(candidate.hash, groups[candidate.hash], candidate)
    ensures Strict(BY_HASH)
    ensures forall other | other in result :: BY_HASH(candidate, other) || BY_HASH(other, candidate)
    ensures ListsCandidates(Part(groups, hashes + {candidate.hash}), existing,
              InsertInOrder(candidate, result, BY_HASH))
  {
    ByHashIsStrict();
    forall other | other in result ensures BY_HASH(candidate, other) || BY_HASH(other, candidate) {
      LessIsTotal(candidate.hash, other.hash);
    }
    var after := InsertInOrder(candidate, result, BY_HASH);
    assert candidate in after;
    assert forall hash :: HasHash(result, hash) ==> HasHash(after, hash);
  }

  method ListCandidates(groups: map<string, Accumulator>, existing: set<string>) returns (result: seq<Candidate>)
    ensures ListsCandidates(groups, existing, result)
  {
    result := [];
    var rest := groups.Keys;
    while rest != {}
      invariant rest <= groups.Keys
      invariant ListsCandidates(Part(groups, groups.Keys - rest), existing, result)
      decreases |rest|
    {
      var hash :| hash in rest;
      var group := groups[hash];
      if Actionable(hash, group, existing) {
        var purposes := TypicalPurposes(group.purposes, MAX_PURPOSES);
        var candidate := Candidate(group.key, hash, group.count, |group.requesters|, purposes, group.first, group.last);
        ListGrows(groups, existing, groups.Keys - rest, result, candidate);
        result := InsertInOrder(candidate, result, BY_HASH);
      }
      assert groups.Keys - (rest - {hash}) == groups.Keys - rest + {hash};
      rest := rest - {hash};
    }
    assert Part(groups, groups.Keys - rest) == groups;
  }

  // ---- Clustering --------------------------------------------------------------------------------------------------

  predicate InWindow(now: int, observation: Observation) {
    now - CLUSTER_WINDOW <= observation.createdAt <= now
  }

  ghost predicate AllReadable(read: Reading, now: int, observations: seq<Observation>) {
    forall i | 0 <= i < |observations| :: InWindow(now, observations[i]) ==> read(observations[i]).Some?
  }

  /** The facts of the observations in the window. */
  ghost function FactsOf(read: Reading, now: int, observations: seq<Observation>): seq<Fact> {
    if observations == [] then []
    else
      var last := observations[|observations| - 1];
      FactsOf(read, now, observations[..|observations| - 1])
      + (if InWindow(now, last) && read(last).Some? then [read(last).value] else [])
  }

  ghost function GroupAll(facts: seq<Fact>): map<string, Accumulator> {
    if facts == [] then map[] else Grouped(GroupAll(facts[..|facts| - 1]), facts[|facts| - 1])
  }

  lemma {:induction false} GroupAllDescribes(facts: seq<Fact>)
    requires SameKeys(facts)
    ensures GroupsDescribe(facts, GroupAll(facts))
  {
    if facts != [] {
      var front, last := facts[..|facts| - 1], facts[|facts| - 1];
      assert facts == front + [last];
      GroupAllDescribes(front);
      GroupingDescribes(front, last, GroupAll(front));
    }
  }

  lemma {:induction false} FactsAreRead(read: Reading, now: int, observations: seq<Observation>)
    ensures forall fact | fact in FactsOf(read, now, observations) ::
              exists o :: o in observations && InWindow(now, o) && read(o) == Some(fact)
  {
    if observations != [] {
      FactsAreRead(read, now, observations[..|observations| - 1]);
    }
  }

  lemma FaithfulFactsHaveSameKeys(read: Reading, now: int, observations: seq<Observation>)
    requires IsFaithful(read)
    ensures SameKeys(FactsOf(read, now, observations))
  {
    var facts := FactsOf(read, now, observations);
    FactsAreRead(read, now, observations);
    forall i, j | 0 <= i < |facts| && 0 <= j < |facts| && facts[i].hash == facts[j].hash
      ensures facts[i].key == facts[j].key
    {
      assert facts[i] in facts && facts[j] in facts;
      var o :| o in observations && read(o) == Some(facts[i]);
      var p :| p in observations && read(p) == Some(facts[j]);
    }
  }

  /** The first i observations are readable where they have to be, and grouped. */
  ghost predicate GroupedUpTo(
    read: Reading, now: int, observations: seq<Observation>, i: nat, groups: map<string, Accumulator>)
    requires i <= |observations|
  {
    AllReadable(read, now, observations[..i]) && groups == GroupAll(FactsOf(read, now, observations[..i]))
  }

  lemma OneMoreObservation(
    read: Reading, now: int, observations: seq<Observation>, i: nat, groups: map<string, Accumulator>)
    requires i < |observations| && GroupedUpTo(read, now, observations, i, groups)
    ensures !InWindow(now, observations[i]) ==> GroupedUpTo(read, now, observations, i + 1, groups)
    ensures InWindow(now, observations[i]) ==>
              match read(observations[i])
              case None => !AllReadable(read, now, observations)
              case Some(fact) => GroupedUpTo(read, now, observations, i + 1, Grouped(groups, fact))
  {
    var facts := FactsOf(read, now, observations[..i]);
    assert observations[..i + 1][..i] == observations[..i];
    assert facts + [] == facts;
    if InWindow(now, observations[i]) && read(observations[i]).Some? {
      OneMoreFact(facts, read(observations[i]).value);
    }
  }

  lemma OneMoreFact(facts: seq<Fact>, fact: Fact)
    ensures GroupAll(facts + [fact]) == Grouped(GroupAll(facts), fact)
  {
    assert (facts + [fact])[..|facts|] == facts;
  }

  /** None stands for the invalid-request error. */
  method ClusterRequests(read: Reading, now: int, observations: seq<Observation>, existing: set<string>)
    returns (result: Option<seq<Candidate>>)
    ensures result.Some? <==>
              now != ZERO_TIME && |observations| <= MAX_OBSERVATIONS && AllReadable(read, now, observations)
    ensures result.Some? ==>
              ListsCandidates(GroupAll(FactsOf(read, now, observations)), existing, result.value)
  {
    if now == ZERO_TIME || |observations| > MAX_OBSERVATIONS {
      return None;
    }
    var groups := GroupRecent(read, now, observations);
    if groups.None? {
      return None;
    }
    var listed := ListCandidates(groups.value, existing);
    result := Some(listed);
  }

  /** The first loop; None when an observation in the window cannot be read. */
  method GroupRecent(read: Reading, now: int, observations: seq<Observation>)
    returns (result: Option<map<string, Accumulator>>)
    ensures result.Some? <==> AllReadable(read, now, observations)
    ensures result.Some? ==> result.value == GroupAll(FactsOf(read, now, observations))
  {
    var groups: map<string, Accumulator> := map[];
    for i := 0 to |observations|
      invariant GroupedUpTo(read, now, observations, i, groups)
    {
      OneMoreObservation(read, now, observations, i, groups);
      if !InWindow(now, observations[i]) {
        continue;
      }
      var fact := read(observations[i]);
      if fact.None? {
        return None;
      }
      groups := Grouped(groups, fact.value);
    }
    assert observations[..|observations|] == observations;
    result := Some(groups);
  }

  // ---- What clustering means ---------------------------------------------------------------------------------------

  lemma {:induction false} FactsOfBoth(read: Reading, now: int, left: seq<Observation>, right: seq<Observation>)
    ensures FactsOf(read, now, left + right) == FactsOf(read, now, left) + FactsOf(read, now, right)
    decreases |right|
  {
    if right == [] {
      assert left + right == left;
    } else {
      FactsOfBoth(read, now, left, right[..|right| - 1]);
      assert (left + right)[..|left + right| - 1] == left + right[..|right| - 1];
    }
  }

  lemma {:induction false} FactsIgnoreOrder(read: Reading, now: int, left: seq<Observation>, right: seq<Observation>)
    requires multiset(left) == multiset(right)
    ensures multiset(FactsOf(read, now, left)) == multiset(FactsOf(read, now, right))
    decreases |left|
  {
    if left == [] {
      assert |multiset(right)| == 0;
    } else {
      var i := Removed(left, right);
      FactsIgnoreOrder(read, now, left[..|left| - 1], right[..i] + right[i + 1..]);
      FactsOfBoth(read, now, right[..i], right[i + 1..]);
      FactsOfBoth(read, now, right[..i], [right[i]]);
      FactsOfBoth(read, now, right[..i] + [right[i]], right[i + 1..]);
    }
  }

  lemma DescriptionsAgree(left: seq<Fact>, right: seq<Fact>, hash: string, group: Accumulator, other: Accumulator)
    requires multiset(left) == multiset(right)
    requires Describes(left, hash, group) && Describes(right, hash, other)
    ensures group == other
  {
    assert forall fact :: fact in left <==> fact in right by {
      assert forall fact :: fact in left <==> fact in multiset(left);
    }
    CountIgnoresOrder(left, right, InGroup(hash));
    forall purpose ensures CountIf(left, InGroupFor(hash, purpose)) == CountIf(right, InGroupFor(hash, purpose)) {
      CountIgnoresOrder(left, right, InGroupFor(hash, purpose));
    }
    assert group.purposes == other.purposes;
    var fact :| fact in left && fact.hash == hash && fact.at == group.first;
  }

  lemma SameHashes(
    left: seq<Fact>, right: seq<Fact>, groups: map<string, Accumulator>, others: map<string, Accumulator>)
    requires multiset(left) == multiset(right) && GroupsDescribe(left, groups) && GroupsDescribe(right, others)
    ensures groups.Keys == others.Keys
  {
    forall hash ensures hash in groups <==> hash in others {
      CountIgnoresOrder(left, right, InGroup(hash));
    }
  }

  lemma DescribedGroupsAgree(
    left: seq<Fact>, right: seq<Fact>, groups: map<string, Accumulator>, others: map<string, Accumulator>)
    requires multiset(left) == multiset(right) && GroupsDescribe(left, groups) && GroupsDescribe(right, others)
    ensures groups == others
  {
    SameHashes(left, right, groups, others);
    forall hash | hash in groups ensures groups[hash] == others[hash] {
      DescriptionsAgree(left, right, hash, groups[hash], others[hash]);
    }
  }

  lemma GroupsAgree(left: seq<Fact>, right: seq<Fact>)
    requires multiset(left) == multiset(right) && SameKeys(left) && SameKeys(right)
    ensures GroupAll(left) == GroupAll(right)
  {
    GroupAllDescribes(left);
    GroupAllDescribes(right);
    DescribedGroupsAgree(left, right, GroupAll(left), GroupAll(right));
  }

  lemma ListIsUnique(
    groups: map<string, Accumulator>, existing: set<string>, left: seq<Candidate>, right: seq<Candidate>)
    requires ListsCandidates(groups, existing, left) && ListsCandidates(groups, existing, right)
    ensures left == right
  {
    ListIsContained(groups, existing, left, right);
    ListIsContained(groups, existing, right, left);
    ByHashIsStrict();
    SortedIsUnique(left, right, BY_HASH);
  }

  lemma ListIsContained(
    groups: map<string, Accumulator>, existing: set<string>, left: seq<Candidate>, right: seq<Candidate>)
    requires ListsCandidates(groups, existing, left) && ListsCandidates(groups, existing, right)
    ensures forall candidate | candidate in left :: candidate in right
  {
    forall candidate | candidate in left ensures candidate in right {
      assert HasHash(right, candidate.hash);
      var other :| other in right && other.hash == candidate.hash;
      var ranked :| IsRanking(groups[candidate.hash].purposes, ranked)
          && candidate.purposes == Names(ranked, MAX_PURPOSES);
      var reranked :|
          IsRanking(groups[other.hash].purposes, reranked) && other.purposes == Names(reranked, MAX_PURPOSES);
      RankingIsUnique(groups[candidate.hash].purposes, ranked, reranked);
    }
  }

  /** The candidates depend on which observations there are, not on their order. */
  lemma ClusteringIgnoresOrder(
    read: Reading, now: int, left: seq<Observation>, right: seq<Observation>, existing: set<string>,
    candidates: seq<Candidate>, others: seq<Candidate>)
    requires IsFaithful(read) && multiset(left) == multiset(right)
    requires ListsCandidates(GroupAll(FactsOf(read, now, left)), existing, candidates)
    requires ListsCandidates(GroupAll(FactsOf(read, now, right)), existing, others)
    ensures candidates == others
  {
    FactsIgnoreOrder(read, now, left, right);
    FaithfulFactsHaveSameKeys(read, now, left);
    FaithfulFactsHaveSameKeys(read, now, right);
    GroupsAgree(FactsOf(read, now, left), FactsOf(read, now, right));
    ListIsUnique(GroupAll(FactsOf(read, now, left)), existing, candidates, others);
  }

  /** Nor does the error. */
  lemma ErrorIgnoresOrder(read: Reading, now: int, left: seq<Observation>, right: seq<Observation>)
    requires multiset(left) == multiset(right)
    ensures |left| == |right| && (AllReadable(read, now, left) <==> AllReadable(read, now, right))
  {
    assert |multiset(left)| == |left| && |multiset(right)| == |right|;
    assert forall o :: o in left <==> o in multiset(left);
    assert forall o :: o in right <==> o in multiset(right);
    assert AllReadable(read, now, left) <==> forall o | o in left :: InWindow(now, o) ==> read(o).Some?;
    assert AllReadable(read, now, right) <==> forall o | o in right :: InWindow(now, o) ==> read(o).Some?;
  }

  ghost const COUNT: Accumulator -> int := (group: Accumulator) => group.count

  lemma {:induction false} SizesAddUpToFacts(facts: seq<Fact>)
    ensures Sum(GroupAll(facts), COUNT) == |facts|
  {
    if facts != [] {
      var front, fact := facts[..|facts| - 1], facts[|facts| - 1];
      SizesAddUpToFacts(front);
      var groups := GroupAll(front);
      SumAfterUpdate(groups, fact.hash, GroupAll(facts)[fact.hash], COUNT);
    }
  }

  ghost function IsRecent(now: int): Observation -> bool {
    (o: Observation) => InWindow(now, o)
  }

  ghost function AsksFor(read: Reading, now: int, hash: string): Observation -> bool {
    (o: Observation) => InWindow(now, o) && read(o).Some? && read(o).value.hash == hash
  }

  /** Every readable observation in the window is one fact, under its own hash. */
  lemma {:induction false} ObservationsAreFacts(read: Reading, now: int, observations: seq<Observation>, hash: string)
    requires AllReadable(read, now, observations)
    ensures |FactsOf(read, now, observations)| == CountIf(observations, IsRecent(now))
    ensures Size(FactsOf(read, now, observations), hash) == CountIf(observations, AsksFor(read, now, hash))
  {
    if observations != [] {
      var front, last := observations[..|observations| - 1], observations[|observations| - 1];
      ObservationsAreFacts(read, now, front, hash);
      if InWindow(now, last) {
        CountOfOneMore(FactsOf(read, now, front), read(last).value, InGroup(hash));
        assert FactsOf(read, now, observations) == FactsOf(read, now, front) + [read(last).value];
      } else {
        assert FactsOf(read, now, observations) == FactsOf(read, now, front);
      }
    }
  }

  lemma CountOfOneMore<T>(s: seq<T>, x: T, p: T -> bool)
    ensures CountIf(s + [x], p) == CountIf(s, p) + (if p(x) then 1 else 0)
  {
    assert (s + [x])[..|s|] == s;
  }

  /** Every observation in the window is in exactly one group: the sizes of all groups add up to their number. */
  lemma GroupSizesAddUp(read: Reading, now: int, observations: seq<Observation>)
    requires AllReadable(read, now, observations)
    ensures Sum(GroupAll(FactsOf(read, now, observations)), COUNT) == CountIf(observations, IsRecent(now))
  {
    SizesAddUpToFacts(FactsOf(read, now, observations));
    ObservationsAreFacts(read, now, observations, "");
  }

  /** A candidate is returned exactly for a hash with enough observations that is not known yet. */
  lemma CandidatesAreExact(facts: seq<Fact>, existing: set<string>, result: seq<Candidate>, hash: string)
    requires SameKeys(facts) && ListsCandidates(GroupAll(facts), existing, result)
    ensures HasHash(result, hash) <==> Size(facts, hash) >= CLUSTER_THRESHOLD && hash !in existing
    ensures forall candidate | candidate in result ::
              candidate.requests == Size(facts, candidate.hash)
              && candidate.requesters == |Requesters(facts, candidate.hash)|
  {
    GroupAllDescribes(facts);
    forall candidate | candidate in result
      ensures candidate.requests == Size(facts, candidate.hash)
              && candidate.requesters == |Requesters(facts, candidate.hash)|
    {
      assert Describes(facts, candidate.hash, GroupAll(facts)[candidate.hash]);
    }
    if hash in GroupAll(facts) {
      assert Describes(facts, hash, GroupAll(facts)[hash]);
    }
  }

  /** Feeding the returned hashes back leaves nothing to return. */
  lemma KnownCandidatesAreNotRepeated(
    facts: seq<Fact>, existing: set<string>, result: seq<Candidate>, again: seq<Candidate>)
    requires SameKeys(facts) && ListsCandidates(GroupAll(facts), existing, result)
    requires ListsCandidates(GroupAll(facts), existing + (set candidate | candidate in result :: candidate.hash), again)
    ensures again == []
  {
    if again != [] {
      var hash := again[0].hash;
      assert again[0] in again;
      CandidatesAreExact(facts, existing, result, hash);
      CandidatesAreExact(facts, existing + (set candidate | candidate in result :: candidate.hash), again, hash);
    }
  }

  // ---- Reading an observation --------------------------------------------------------------------------------------

  const MAX_METRICS: nat := 20
  const MAX_DIMENSIONS: nat := 30

  /** The library functions reading uses; bounded is the check of a text of 1 to 2000 characters. */
  datatype Runtime = Runtime(
    uuid: string -> bool,
    trim: string -> string,
    upper: string -> string,
    grain: string -> bool,
    bounded: string -> bool,
    digest: Key -> string)
  {
    /** The digest of a key's canonical JSON is taken to be injective. */
    ghost predicate Valid() {
      forall key, other | digest(key) == digest(other) :: key == other
    }
  }

  function Trimmed(runtime: Runtime, values: seq<string>): seq<string> {
    seq(|values|, i requires 0 <= i < |values| => runtime.trim(values[i]))
  }

  predicate AllUuids(runtime: Runtime, values: seq<string>) {
    forall i | 0 <= i < |values| :: runtime.uuid(values[i])
  }

  predicate Distinct(values: seq<string>) {
    forall i, j | 0 <= i < j < |values| :: values[i] != values[j]
  }

  function Normalized(runtime: Runtime, values: seq<string>, limit: nat): Option<seq<string>> {
    var trimmed := Trimmed(runtime, values);
    if |values| <= limit && AllUuids(runtime, trimmed) && Distinct(trimmed) then Some(SortDistinct(trimmed)) else None
  }

  lemma {:induction false} SortedSizeTellsDistinct(values: seq<string>)
    ensures |SortDistinct(values)| <= |values|
    ensures |SortDistinct(values)| == |values| <==> Distinct(values)
  {
    if values != [] {
      SortedSizeTellsDistinct(values[1..]);
      assert Distinct(values) <==> values[0] !in values[1..] && Distinct(values[1..]) by {
        assert forall i | 1 <= i < |values| :: values[i] == values[1..][i - 1];
        assert forall i | 0 <= i < |values| - 1 :: values[1..][i] == values[i + 1];
      }
    }
  }

  /** Trimmed, valid and without repetition, in ascending order. */
  method NormalizedUuids(runtime: Runtime, values: seq<string>, limit: nat) returns (result: Option<seq<string>>)
    ensures result == Normalized(runtime, values, limit)
  {
    if |values| > limit {
      return None;
    }
    var trimmed: seq<string> := [];
    for i := 0 to |values|
      invariant trimmed == Trimmed(runtime, values)[..i] && AllUuids(runtime, trimmed)
    {
      var value := runtime.trim(values[i]);
      if !runtime.uuid(value) {
        assert !runtime.uuid(Trimmed(runtime, values)[i]);
        return None;
      }
      trimmed := trimmed + [value];
    }
    assert trimmed == Trimmed(runtime, values);
    SortedSizeTellsDistinct(trimmed);
    var sorted := SortDistinct(trimmed);
    result := if |sorted| != |trimmed| then None else Some(sorted);
  }

  /** The trimmed identifiers, all valid, each once and in ascending order, with none lost. */
  ghost predicate IsNormalized(runtime: Runtime, given: seq<string>, kept: seq<string>) {
    && Ascending(kept) && |kept| == |given| && AllUuids(runtime, kept)
    && forall x :: x in kept <==> x in Trimmed(runtime, given)
  }

  lemma NormalizedIsNormalized(runtime: Runtime, given: seq<string>, limit: nat)
    requires Normalized(runtime, given, limit).Some?
    ensures IsNormalized(runtime, given, Normalized(runtime, given, limit).value)
  {
    var trimmed := Trimmed(runtime, given);
    var kept := SortDistinct(trimmed);
    SortedSizeTellsDistinct(trimmed);
    forall i | 0 <= i < |kept| ensures runtime.uuid(kept[i]) {
      assert kept[i] in trimmed;
    }
  }

  function Read(runtime: Runtime, o: Observation): Option<Fact> {
    var metrics := Normalized(runtime, o.metrics, MAX_METRICS);
    var dimensions := Normalized(runtime, o.dimensions, MAX_DIMENSIONS);
    var grain, purpose := runtime.upper(runtime.trim(o.grain)), runtime.trim(o.purpose);
    if !runtime.uuid(o.request) || !runtime.uuid(o.tenant) || !runtime.uuid(o.domain) || !runtime.uuid(o.requester)
       || o.createdAt == ZERO_TIME || metrics.None? || dimensions.None? || !runtime.grain(grain)
       || !runtime.bounded(purpose)
    then None
    else
      var key := Key(o.tenant, o.domain, metrics.value, dimensions.value, grain);
      Some(Fact(runtime.digest(key), key, o.requester, purpose, o.createdAt))
  }

  /** What is read is trimmed, valid and in the form in which equal questions are equal. */
  method NormalizeClusterObservation(runtime: Runtime, o: Observation) returns (fact: Option<Fact>)
    ensures fact == Read(runtime, o)
    ensures fact.Some? ==>
              var key := fact.value.key;
              && fact.value.hash == runtime.digest(key) && key.tenant == o.tenant && key.domain == o.domain
              && IsNormalized(runtime, o.metrics, key.metrics) && IsNormalized(runtime, o.dimensions, key.dimensions)
              && runtime.grain(key.grain) && key.grain == runtime.upper(runtime.trim(o.grain))
              && runtime.bounded(fact.value.purpose) && fact.value.purpose == runtime.trim(o.purpose)
  {
    if !runtime.uuid(o.request) || !runtime.uuid(o.tenant) || !runtime.uuid(o.domain) || !runtime.uuid(o.requester)
       || o.createdAt == ZERO_TIME {
      return None;
    }
    var metrics := NormalizedUuids(runtime, o.metrics, MAX_METRICS);
    if metrics.None? {
      return None;
    }
    var dimensions := NormalizedUuids(runtime, o.dimensions, MAX_DIMENSIONS);
    if dimensions.None? {
      return None;
    }
    var grain := runtime.upper(runtime.trim(o.grain));
    if !runtime.grain(grain) {
      return None;
    }
    var purpose := runtime.trim(o.purpose);
    if !runtime.bounded(purpose) {
      return None;
    }
    NormalizedIsNormalized(runtime, o.metrics, MAX_METRICS);
    NormalizedIsNormalized(runtime, o.dimensions, MAX_DIMENSIONS);
    var key := Key(o.tenant, o.domain, metrics.value, dimensions.value, grain);
    return Some(Fact(runtime.digest(key), key, o.requester, purpose, o.createdAt));
  }

  /** Reading is faithful, so clustering by hash is clustering by what is asked for. */
  lemma ReadingIsFaithful(runtime: Runtime)
    requires runtime.Valid()
    ensures IsFaithful(o => Read(runtime, o))
  {
  }

  /**
   * Two observations land in one group exactly when they ask for the same sets of metrics and dimensions, and so on.
   */
  lemma SameGroupSameQuestion(runtime: Runtime, o: Observation, p: Observation)
    requires runtime.Valid() && Read(runtime, o).Some? && Read(runtime, p).Some?
    ensures Read(runtime, o).value.hash == Read(runtime, p).value.hash <==>
              && o.tenant == p.tenant && o.domain == p.domain
              && (forall x :: x in Trimmed(runtime, o.metrics) <==> x in Trimmed(runtime, p.metrics))
              && (forall x :: x in Trimmed(runtime, o.dimensions) <==> x in Trimmed(runtime, p.dimensions))
              && runtime.upper(runtime.trim(o.grain)) == runtime.upper(runtime.trim(p.grain))
  {
    SameSetsSortAlike(Trimmed(runtime, o.metrics), Trimmed(runtime, p.metrics));
    SameSetsSortAlike(Trimmed(runtime, o.dimensions), Trimmed(runtime, p.dimensions));
  }

  lemma SameSetsSortAlike(left: seq<string>, right: seq<string>)
    ensures SortDistinct(left) == SortDistinct(right) <==> forall x :: x in left <==> x in right
  {
    if forall x :: x in left <==> x in right {
      LessIsStrictOrder();
    SortedIsUnique(SortDistinct(left), SortDistinct(right), Less);
    }
    if SortDistinct(left) == SortDistinct(right) {
      assert forall x :: x in left <==> x in SortDistinct(left);
      assert forall x :: x in right <==> x in SortDistinct(right);
    }
  }
}
