/** The ledger of AI requests: admission under quotas, and the one settlement each request gets. */
module QuotaLedger {
  import opened Prelude
  import opened FiniteSums

  const MAX_INT64: int := 0x7FFF_FFFF_FFFF_FFFF
  const MAX_INT32: int := 0x7FFF_FFFF
  const LEASE_SECONDS: int := 300
  const MAX_CONFIGURED_ATTEMPTS: int := 5

  type RequestId = nat

  datatype Metric = Tokens | Cost
  datatype Amount = Amount(tokens: int, cost: int) {
    function Of(metric: Metric): int {
      if metric == Tokens then tokens else cost
    }
  }

  datatype Status = Running | Succeeded | Failed | Canceled
  datatype Request = Request(
    created: int,
    expires: int,
    status: Status,
    reserved: Amount,
    actual: Amount,
    attempts: int)

  /** Zero means unlimited. */
  datatype Policy = Policy(allowed: bool, requestsPerDay: int, monthly: Amount) {
    predicate Valid() {
      requestsPerDay <= MAX_INT64 && monthly.tokens <= MAX_INT64 && monthly.cost <= MAX_INT64
    }
  }

  /** Where the UTC day and month of an instant start. */
  datatype Calendar = Calendar(day: int -> int, month: int -> int) {
    ghost predicate Valid() {
      && (forall t :: month(t) <= day(t) <= t)
      && (forall t, u | day(t) <= u <= t :: day(u) == day(t))
      && (forall t, u | month(t) <= u <= t :: month(u) == month(t))
    }
  }

  datatype Failure = Forbidden | QuotaExceeded | InvalidInvocation | NotFound | Conflict

  predicate ExceedsRequestQuota(used: int, limit: int) {
    limit != 0 && (used < 0 || limit < 0 || used >= limit)
  }

  predicate ExceedsQuota(used: int, reserved: int, limit: int) {
    limit != 0 && (used < 0 || reserved < 0 || limit < 0 || reserved > limit || used > limit - reserved)
  }

  function Saturated(total: int): int {
    if total > MAX_INT64 then MAX_INT64 else total
  }

  /** A success is charged what it used; anything else what it reserved. */
  function Accounted(request: Request, metric: Metric): int {
    if request.status == Succeeded then request.actual.Of(metric) else request.reserved.Of(metric)
  }

  function AccountedSince(start: int, metric: Metric): Request -> int {
    (request: Request) => if request.created >= start then Accounted(request, metric) else 0
  }

  function CountedSince(start: int): Request -> int {
    (request: Request) => if request.created >= start then 1 else 0
  }

  function Swept(requests: map<RequestId, Request>, now: int): map<RequestId, Request> {
    map id | id in requests ::
      if requests[id].status == Running && requests[id].expires <= now
      then requests[id].(status := Failed)
      else requests[id]
  }

  ghost predicate Admits(
    requests: map<RequestId, Request>, policy: Policy, calendar: Calendar, now: int, reserved: Amount)
  {
    && !ExceedsRequestQuota(Sum(requests, CountedSince(calendar.day(now))), policy.requestsPerDay)
    && (forall metric ::
          !ExceedsQuota(Saturated(Sum(requests, AccountedSince(calendar.month(now), metric))), reserved.Of(metric),
            policy.monthly.Of(metric)))
  }

  /** Room for one request more: an unlimited quota, or sound numbers that stay within it. */
  ghost predicate HasRoom(used: int, asked: int, limit: int) {
    limit == 0 || (0 <= used && 0 <= asked && 0 <= limit && used + asked <= limit)
  }

  /** A start is admitted exactly when the day has room for one request and the month for its tokens and its cost. */
  lemma AdmissionIsExact(
    requests: map<RequestId, Request>, policy: Policy, calendar: Calendar, now: int, reserved: Amount)
    ensures Admits(requests, policy, calendar, now, reserved) <==>
              var day, month := calendar.day(now), calendar.month(now);
              && HasRoom(Sum(requests, CountedSince(day)), 1, policy.requestsPerDay)
              && HasRoom(Saturated(Sum(requests, AccountedSince(month, Tokens))), reserved.tokens, policy.monthly.tokens)
              && HasRoom(Saturated(Sum(requests, AccountedSince(month, Cost))), reserved.cost, policy.monthly.cost)
  {
    assert reserved.Of(Tokens) == reserved.tokens && reserved.Of(Cost) == reserved.cost;
    assert policy.monthly.Of(Tokens) == policy.monthly.tokens && policy.monthly.Of(Cost) == policy.monthly.cost;
  }

  predicate ValidStart(reserved: Amount, maxAttempts: int) {
    reserved.tokens > 0 && reserved.cost >= 0 && 1 <= maxAttempts <= MAX_CONFIGURED_ATTEMPTS
  }

  /** The rows after a Start; a refusal rolls the sweep back with everything else. */
  ghost function AfterStart(
    requests: map<RequestId, Request>, policy: Policy, calendar: Calendar, now: int, id: RequestId, reserved: Amount)
    : map<RequestId, Request>
  {
    if policy.allowed && Admits(Swept(requests, now), policy, calendar, now, reserved)
    then Swept(requests, now)[id := Request(now, now + LEASE_SECONDS, Running, reserved, Amount(0, 0), 0)]
    else requests
  }

  predicate ValidCompletion(attempts: int, prompt: int, completion: int, actual: Amount) {
    && 1 <= attempts <= MAX_CONFIGURED_ATTEMPTS && prompt > 0 && completion > 0 && actual.cost >= 0
    && prompt + completion <= actual.tokens <= MAX_INT32
  }

  predicate IsRunning(requests: map<RequestId, Request>, id: RequestId) {
    id in requests && requests[id].status == Running
  }

  function Completed(
    requests: map<RequestId, Request>, id: RequestId, attempts: int, actual: Amount): map<RequestId, Request>
    requires id in requests
  {
    requests[id := requests[id].(status := Succeeded, actual := actual, attempts := attempts)]
  }

  function FailedWith(
    requests: map<RequestId, Request>, id: RequestId, attempts: int, canceled: bool): map<RequestId, Request>
    requires id in requests
  {
    requests[id := requests[id].(status := if canceled then Canceled else Failed, attempts := attempts)]
  }

  class Store {
    var requests: map<RequestId, Request>

    /** The aggregate of a query over the rows. */
    method Total(f: Request -> int) returns (total: int)
      ensures total == Sum(requests, f)
    {
      total := 0;
      var rest := requests;
      while rest != map[]
        invariant total + Sum(rest, f) == Sum(requests, f)
        decreases |rest|
      {
        var id :| id in rest;
        SumSplits(rest, id, f);
        total := total + f(rest[id]);
        rest := rest - {id};
      }
    }

    method Start(policy: Policy, calendar: Calendar, now: int, id: RequestId, reserved: Amount, maxAttempts: int)
      returns (failure: Option<Failure>)
      requires id !in requests
      modifies this
      ensures failure.None? <==>
                ValidStart(reserved, maxAttempts) && policy.allowed
                && Admits(Swept(old(requests), now), policy, calendar, now, reserved)
      ensures requests ==
              if failure.None? then AfterStart(old(requests), policy, calendar, now, id, reserved) else old(requests)
    {
      if !ValidStart(reserved, maxAttempts) {
        return Some(InvalidInvocation);
      }
      if !policy.allowed {
        return Some(Forbidden);
      }
      var before := requests;
      requests := Swept(requests, now);
      var today := Total(CountedSince(calendar.day(now)));
      var tokens := Total(AccountedSince(calendar.month(now), Tokens));
      var cost := Total(AccountedSince(calendar.month(now), Cost));
      if ExceedsRequestQuota(today, policy.requestsPerDay)
         || ExceedsQuota(Saturated(tokens), reserved.tokens, policy.monthly.tokens)
         || ExceedsQuota(Saturated(cost), reserved.cost, policy.monthly.cost) {
        assert !Admits(requests, policy, calendar, now, reserved) by {
          assert reserved.Of(Tokens) == reserved.tokens && reserved.Of(Cost) == reserved.cost;
        }
        requests := before;
        return Some(QuotaExceeded);
      }
      requests := requests[id := Request(now, now + LEASE_SECONDS, Running, reserved, Amount(0, 0), 0)];
      failure := None;
    }

    method LockRunning(id: RequestId) returns (failure: Option<Failure>)
      ensures failure ==
              if id !in requests then Some(NotFound)
              else if requests[id].status != Running then Some(Conflict)
              else None
    {
      if id !in requests {
        return Some(NotFound);
      }
      return if requests[id].status != Running then Some(Conflict) else None;
    }

    method Complete(id: RequestId, attempts: int, prompt: int, completion: int, actual: Amount)
      returns (failure: Option<Failure>)
      modifies this
      ensures failure.None? <==> ValidCompletion(attempts, prompt, completion, actual) && IsRunning(old(requests), id)
      ensures requests == if failure.None? then Completed(old(requests), id, attempts, actual) else old(requests)
    {
      if !ValidCompletion(attempts, prompt, completion, actual) {
        return Some(InvalidInvocation);
      }
      failure := LockRunning(id);
      if failure.None? {
        requests := requests[id := requests[id].(status := Succeeded, actual := actual, attempts := attempts)];
      }
    }

    method Fail(id: RequestId, attempts: int, canceled: bool) returns (failure: Option<Failure>)
      modifies this
      ensures failure.None? <==> 1 <= attempts <= MAX_CONFIGURED_ATTEMPTS && IsRunning(old(requests), id)
      ensures requests == if failure.None? then FailedWith(old(requests), id, attempts, canceled) else old(requests)
    {
      if attempts < 1 || attempts > MAX_CONFIGURED_ATTEMPTS {
        return Some(InvalidInvocation);
      }
      failure := LockRunning(id);
      if failure.None? {
        requests := requests[id :=
            requests[id].(status := if canceled then Canceled else Failed, attempts := attempts)];
      }
    }
  }

  // ---- Runs ---------------------------------------------------------------------------------------------------------

  /** The ledger of a tenant whose policy does not change. */
  datatype Ledger = Ledger(now: int, requests: map<RequestId, Request>)

  datatype Action =
    | Tick(seconds: nat)
    | Begin(id: RequestId, reserved: Amount, maxAttempts: int)
    | Finish(id: RequestId, attempts: int, prompt: int, completion: int, actual: Amount)
    | GiveUp(id: RequestId, attempts: int, canceled: bool)

  predicate Enabled(ledger: Ledger, a: Action) {
    match a
    case Tick(_) => true
    case Begin(id, reserved, maxAttempts) => id !in ledger.requests && ValidStart(reserved, maxAttempts)
    case Finish(id, attempts, prompt, completion, actual) =>
      ValidCompletion(attempts, prompt, completion, actual) && IsRunning(ledger.requests, id)
    case GiveUp(id, attempts, _) => 1 <= attempts <= MAX_CONFIGURED_ATTEMPTS && IsRunning(ledger.requests, id)
  }

  ghost function Apply(policy: Policy, calendar: Calendar, ledger: Ledger, a: Action): Ledger
    requires Enabled(ledger, a)
  {
    match a
    case Tick(seconds) => ledger.(now := ledger.now + seconds)
    case Begin(id, reserved, _) =>
      ledger.(requests := AfterStart(ledger.requests, policy, calendar, ledger.now, id, reserved))
    case Finish(id, attempts, _, _, actual) => ledger.(requests := Completed(ledger.requests, id, attempts, actual))
    case GiveUp(id, attempts, canceled) => ledger.(requests := FailedWith(ledger.requests, id, attempts, canceled))
  }

  /** What a request charges within its reservation, and what a success charges beyond it. */
  function Within(request: Request, metric: Metric): int {
    if Accounted(request, metric) <= request.reserved.Of(metric) then Accounted(request, metric)
    else request.reserved.Of(metric)
  }

  function Beyond(request: Request, metric: Metric): int {
    if request.status == Succeeded && request.actual.Of(metric) > request.reserved.Of(metric)
    then request.actual.Of(metric) - request.reserved.Of(metric)
    else 0
  }

  /** The same, for the requests of one month. */
  ghost function WithinIn(calendar: Calendar, month: int, metric: Metric): Request -> int {
    (request: Request) => if calendar.month(request.created) == month then Within(request, metric) else 0
  }

  ghost function BeyondIn(calendar: Calendar, month: int, metric: Metric): Request -> int {
    (request: Request) => if calendar.month(request.created) == month then Beyond(request, metric) else 0
  }

  ghost function AccountedIn(calendar: Calendar, month: int, metric: Metric): Request -> int {
    (request: Request) => if calendar.month(request.created) == month then Accounted(request, metric) else 0
  }

  ghost function CountedIn(calendar: Calendar, day: int): Request -> int {
    (request: Request) => if calendar.day(request.created) == day then 1 else 0
  }

  ghost predicate RequestIsSound(request: Request, now: int) {
    && request.created <= now && request.reserved.tokens > 0 && request.reserved.cost >= 0
    && request.actual.tokens >= 0 && request.actual.cost >= 0
  }

  ghost predicate WithinQuota(policy: Policy, calendar: Calendar, ledger: Ledger) {
    && (forall month, metric :: policy.monthly.Of(metric) > 0 ==>
          Sum(ledger.requests, WithinIn(calendar, month, metric)) <= policy.monthly.Of(metric))
    && (forall day :: policy.requestsPerDay > 0 ==>
          Sum(ledger.requests, CountedIn(calendar, day)) <= policy.requestsPerDay)
  }

  ghost predicate Invariant(policy: Policy, calendar: Calendar, ledger: Ledger) {
    && (forall id | id in ledger.requests :: RequestIsSound(ledger.requests[id], ledger.now))
    && WithinQuota(policy, calendar, ledger)
  }

  /** A change of one row changes each sum by that row's difference. */
  lemma SettlementLowersWithin(requests: map<RequestId, Request>, id: RequestId, settled: Request, calendar: Calendar)
    requires id in requests && requests[id].status == Running
    requires settled.created == requests[id].created && settled.reserved == requests[id].reserved
    ensures forall month, metric ::
              Sum(requests[id := settled], WithinIn(calendar, month, metric))
                  <= Sum(requests, WithinIn(calendar, month, metric))
    ensures forall day ::
              Sum(requests[id := settled], CountedIn(calendar, day)) == Sum(requests, CountedIn(calendar, day))
  {
    forall month, metric
      ensures Sum(requests[id := settled], WithinIn(calendar, month, metric))
                <= Sum(requests, WithinIn(calendar, month, metric))
    {
      SumAfterUpdate(requests, id, settled, WithinIn(calendar, month, metric));
    }
    forall day
      ensures Sum(requests[id := settled], CountedIn(calendar, day)) == Sum(requests, CountedIn(calendar, day))
    {
      SumAfterUpdate(requests, id, settled, CountedIn(calendar, day));
    }
  }

  lemma {:induction false} SameTerms(left: map<RequestId, Request>, right: map<RequestId, Request>, f: Request -> int)
    requires left.Keys == right.Keys && forall id | id in left :: f(left[id]) == f(right[id])
    ensures Sum(left, f) == Sum(right, f)
    decreases |left|
  {
    if left != map[] {
      var id :| id in left;
      SumSplits(left, id, f);
      SumSplits(right, id, f);
      SameTerms(left - {id}, right - {id}, f);
    } else {
      assert right == map[];
    }
  }

  lemma SweepKeepsSums(requests: map<RequestId, Request>, now: int, calendar: Calendar)
    ensures forall month, metric ::
              Sum(Swept(requests, now), WithinIn(calendar, month, metric))
                  == Sum(requests, WithinIn(calendar, month, metric))
    ensures forall day :: Sum(Swept(requests, now), CountedIn(calendar, day)) == Sum(requests, CountedIn(calendar, day))
  {
    forall month, metric
      ensures Sum(Swept(requests, now), WithinIn(calendar, month, metric))
                == Sum(requests, WithinIn(calendar, month, metric))
    {
      forall id | id in requests
        ensures WithinIn(calendar, month, metric)(Swept(requests, now)[id])
                  == WithinIn(calendar, month, metric)(requests[id])
      {
        assert Accounted(Swept(requests, now)[id], metric) == Accounted(requests[id], metric);
      }
      SameTerms(Swept(requests, now), requests, WithinIn(calendar, month, metric));
    }
    forall day ensures Sum(Swept(requests, now), CountedIn(calendar, day)) == Sum(requests, CountedIn(calendar, day)) {
      SameTerms(Swept(requests, now), requests, CountedIn(calendar, day));
    }
  }

  /** What admission reads bounds what is charged within reservations this month. */
  lemma AdmissionReadsTheMonth(requests: map<RequestId, Request>, calendar: Calendar, now: int, metric: Metric)
    requires calendar.Valid() && forall id | id in requests :: RequestIsSound(requests[id], now)
    ensures 0 <= Sum(requests, WithinIn(calendar, calendar.month(now), metric))
              <= Sum(requests, AccountedSince(calendar.month(now), metric))
    ensures Sum(requests, CountedIn(calendar, calendar.day(now))) <= Sum(requests, CountedSince(calendar.day(now)))
  {
    var month := calendar.month(now);
    forall id | id in requests
      ensures 0 <= WithinIn(calendar, month, metric)(requests[id]) <= AccountedSince(month, metric)(requests[id])
      ensures CountedIn(calendar, calendar.day(now))(requests[id]) <= CountedSince(calendar.day(now))(requests[id])
    {
      var request := requests[id];
      assert RequestIsSound(request, now);
      assert calendar.month(request.created) <= calendar.day(request.created) <= request.created;
    }
    SumIsNotNegative(requests, WithinIn(calendar, month, metric));
    SumIsBounded(requests, WithinIn(calendar, month, metric), AccountedSince(month, metric));
    SumIsBounded(requests, CountedIn(calendar, calendar.day(now)), CountedSince(calendar.day(now)));
  }

  /** The admission test leaves room for the reservation, also where the aggregate saturates. */
  lemma AdmissionLeavesRoom(within: int, accounted: int, reserved: int, limit: int)
    requires within <= accounted && within <= limit && 0 < limit <= MAX_INT64 && reserved >= 0
    requires !ExceedsQuota(Saturated(accounted), reserved, limit)
    ensures within + reserved <= limit
  {
  }

  lemma MonthHasRoom(
    policy: Policy, calendar: Calendar, requests: map<RequestId, Request>, now: int, added: Request, id: RequestId,
    month: int, metric: Metric)
    requires policy.Valid() && calendar.Valid() && id !in requests && policy.monthly.Of(metric) > 0
    requires added.created == now && added.status == Running && added.reserved.Of(metric) >= 0
    requires forall other | other in requests :: RequestIsSound(requests[other], now)
    requires !ExceedsQuota(Saturated(Sum(requests, AccountedSince(calendar.month(now), metric))),
              added.reserved.Of(metric),
               policy.monthly.Of(metric))
    requires Sum(requests, WithinIn(calendar, month, metric)) <= policy.monthly.Of(metric)
    ensures Sum(requests[id := added], WithinIn(calendar, month, metric)) <= policy.monthly.Of(metric)
  {
    SumAfterUpdate(requests, id, added, WithinIn(calendar, month, metric));
    if calendar.month(now) == month {
      AdmissionReadsTheMonth(requests, calendar, now, metric);
      AdmissionLeavesRoom(
        Sum(requests, WithinIn(calendar, month, metric)), Sum(requests, AccountedSince(month, metric)),
        added.reserved.Of(metric), policy.monthly.Of(metric));
    }
  }

  lemma AdmissionStaysWithin(
    policy: Policy, calendar: Calendar, requests: map<RequestId, Request>, now: int, id: RequestId, reserved: Amount,
    month: int, metric: Metric)
    requires policy.Valid() && calendar.Valid()
    requires forall other | other in requests :: RequestIsSound(requests[other], now)
    requires Sum(requests, WithinIn(calendar, month, metric)) <= policy.monthly.Of(metric)
    requires id !in requests && ValidStart(reserved, 1) && policy.monthly.Of(metric) > 0
    requires policy.allowed && Admits(Swept(requests, now), policy, calendar, now, reserved)
    ensures Sum(AfterStart(requests, policy, calendar, now, id, reserved), WithinIn(calendar, month, metric))
         <= policy.monthly.Of(metric)
  {
    SweepKeepsSums(requests, now, calendar);
    SweepKeepsSoundness(requests, now);
    var added := Request(now, now + LEASE_SECONDS, Running, reserved, Amount(0, 0), 0);
    MonthHasRoom(policy, calendar, Swept(requests, now), now, added, id, month, metric);
  }

  lemma DayHasRoom(
    policy: Policy, calendar: Calendar, requests: map<RequestId, Request>, now: int, added: Request, id: RequestId,
    day: int)
    requires calendar.Valid() && id !in requests && added.created == now && policy.requestsPerDay > 0
    requires forall other | other in requests :: RequestIsSound(requests[other], now)
    requires !ExceedsRequestQuota(Sum(requests, CountedSince(calendar.day(now))), policy.requestsPerDay)
    requires Sum(requests, CountedIn(calendar, day)) <= policy.requestsPerDay
    ensures Sum(requests[id := added], CountedIn(calendar, day)) <= policy.requestsPerDay
  {
    AdmissionReadsTheMonth(requests, calendar, now, Tokens);
    SumAfterUpdate(requests, id, added, CountedIn(calendar, day));
  }

  lemma SweepKeepsSoundness(requests: map<RequestId, Request>, now: int)
    requires forall id | id in requests :: RequestIsSound(requests[id], now)
    ensures forall id | id in Swept(requests, now) :: RequestIsSound(Swept(requests, now)[id], now)
  {
  }

  lemma AdmissionStaysInDay(
    policy: Policy, calendar: Calendar, requests: map<RequestId, Request>, now: int, id: RequestId, reserved: Amount,
    day: int)
    requires calendar.Valid() && forall other | other in requests :: RequestIsSound(requests[other], now)
    requires Sum(requests, CountedIn(calendar, day)) <= policy.requestsPerDay
    requires id !in requests && policy.requestsPerDay > 0
    requires policy.allowed && Admits(Swept(requests, now), policy, calendar, now, reserved)
    ensures Sum(AfterStart(requests, policy, calendar, now, id, reserved), CountedIn(calendar, day))
              <= policy.requestsPerDay
  {
    SweepKeepsSums(requests, now, calendar);
    SweepKeepsSoundness(requests, now);
    var added := Request(now, now + LEASE_SECONDS, Running, reserved, Amount(0, 0), 0);
    DayHasRoom(policy, calendar, Swept(requests, now), now, added, id, day);
  }

  lemma BeginKeepsInvariant(policy: Policy, calendar: Calendar, ledger: Ledger, a: Action)
    requires policy.Valid() && calendar.Valid() && Invariant(policy, calendar, ledger) && Enabled(ledger, a) && a.Begin?
    ensures Invariant(policy, calendar, Apply(policy, calendar, ledger, a))
  {
    if policy.allowed && Admits(Swept(ledger.requests, ledger.now), policy, calendar, ledger.now, a.reserved) {
      forall month, metric | policy.monthly.Of(metric) > 0
        ensures Sum(Apply(policy, calendar, ledger, a).requests, WithinIn(calendar, month, metric))
             <= policy.monthly.Of(metric)
      {
        AdmissionStaysWithin(policy, calendar, ledger.requests, ledger.now, a.id, a.reserved, month, metric);
      }
      forall day | policy.requestsPerDay > 0
        ensures Sum(Apply(policy, calendar, ledger, a).requests, CountedIn(calendar, day)) <= policy.requestsPerDay
      {
        AdmissionStaysInDay(policy, calendar, ledger.requests, ledger.now, a.id, a.reserved, day);
      }
    }
  }

  lemma StepKeepsInvariant(policy: Policy, calendar: Calendar, ledger: Ledger, a: Action)
    requires policy.Valid() && calendar.Valid() && Invariant(policy, calendar, ledger) && Enabled(ledger, a)
    ensures Invariant(policy, calendar, Apply(policy, calendar, ledger, a))
  {
    if a.Begin? {
      BeginKeepsInvariant(policy, calendar, ledger, a);
    } else if !a.Tick? {
      SettlementLowersWithin(ledger.requests, a.id, Apply(policy, calendar, ledger, a).requests[a.id], calendar);
    }
  }

  ghost predicate Next(policy: Policy, calendar: Calendar, ledger: Ledger, next: Ledger) {
    exists a :: Enabled(ledger, a) && next == Apply(policy, calendar, ledger, a)
  }

  ghost predicate StepAt(policy: Policy, calendar: Calendar, run: seq<Ledger>, i: nat)
    requires i + 1 < |run|
  {
    Next(policy, calendar, run[i], run[i + 1])
  }

  ghost predicate IsRun(policy: Policy, calendar: Calendar, run: seq<Ledger>) {
    && policy.Valid() && calendar.Valid()
    && |run| > 0 && run[0].requests == map[]
    && forall i: nat | i + 1 < |run| :: StepAt(policy, calendar, run, i)
  }

  lemma {:induction false} RunKeepsInvariant(policy: Policy, calendar: Calendar, run: seq<Ledger>, i: nat)
    requires IsRun(policy, calendar, run) && i < |run|
    ensures Invariant(policy, calendar, run[i])
  {
    if i > 0 {
      RunKeepsInvariant(policy, calendar, run, i - 1);
      assert StepAt(policy, calendar, run, i - 1);
      var a :| Enabled(run[i - 1], a) && run[i] == Apply(policy, calendar, run[i - 1], a);
      StepKeepsInvariant(policy, calendar, run[i - 1], a);
    }
  }

  /** A month's charges stay within the limit plus what settled requests used beyond their own reservations. */
  lemma MonthStaysWithinLimit(policy: Policy, calendar: Calendar, run: seq<Ledger>, i: nat, month: int, metric: Metric)
    requires IsRun(policy, calendar, run) && i < |run| && policy.monthly.Of(metric) > 0
    ensures Sum(run[i].requests, AccountedIn(calendar, month, metric))
         <= policy.monthly.Of(metric) + Sum(run[i].requests, BeyondIn(calendar, month, metric))
  {
    RunKeepsInvariant(policy, calendar, run, i);
    SumOfSums(run[i].requests, WithinIn(calendar, month, metric), BeyondIn(calendar, month, metric),
      AccountedIn(calendar, month, metric));
  }

  /** No day has more requests than its limit. */
  lemma DayStaysWithinLimit(policy: Policy, calendar: Calendar, run: seq<Ledger>, i: nat, day: int)
    requires IsRun(policy, calendar, run) && i < |run| && policy.requestsPerDay > 0
    ensures Sum(run[i].requests, CountedIn(calendar, day)) <= policy.requestsPerDay
  {
    RunKeepsInvariant(policy, calendar, run, i);
  }

  lemma StepSettlesOnce(policy: Policy, calendar: Calendar, ledger: Ledger, next: Ledger, id: RequestId)
    requires Next(policy, calendar, ledger, next) && id in ledger.requests
    ensures id in next.requests
    ensures ledger.requests[id].status != Running ==> next.requests[id] == ledger.requests[id]
    ensures next.requests[id].reserved == ledger.requests[id].reserved
  {
  }

  /** A request leaves Running at most once: whatever it became, it stays. */
  lemma {:induction false} SettledRequestsStay(
    policy: Policy, calendar: Calendar, run: seq<Ledger>, i: nat, j: nat, id: RequestId)
    requires IsRun(policy, calendar, run) && i <= j < |run| && id in run[i].requests
    ensures id in run[j].requests && run[j].requests[id].reserved == run[i].requests[id].reserved
    ensures run[i].requests[id].status != Running ==> run[j].requests[id] == run[i].requests[id]
  {
    if i < j {
      SettledRequestsStay(policy, calendar, run, i, j - 1, id);
      assert StepAt(policy, calendar, run, j - 1);
      StepSettlesOnce(policy, calendar, run[j - 1], run[j], id);
    }
  }

  /** All that others can do to a running request: sweep it to failed once its lease has ended. */
  predicate OthersMay(was: map<RequestId, Request>, next: map<RequestId, Request>, id: RequestId, later: int)
    requires id in was
  {
    && id in next
    && (next[id] == was[id]
        || (was[id].status == Running && was[id].expires <= later && next[id] == was[id].(status := Failed)))
  }

  predicate Settles(a: Action, id: RequestId) {
    (a.Finish? || a.GiveUp?) && a.id == id
  }

  ghost predicate NextForOthers(policy: Policy, calendar: Calendar, ledger: Ledger, next: Ledger, id: RequestId) {
    exists a :: Enabled(ledger, a) && !Settles(a, id) && next == Apply(policy, calendar, ledger, a)
  }

  ghost predicate OthersAt(policy: Policy, calendar: Calendar, run: seq<Ledger>, i: nat, id: RequestId)
    requires i + 1 < |run|
  {
    NextForOthers(policy, calendar, run[i], run[i + 1], id)
  }

  /** Through any steps that do not settle a request, others at most sweep it, and only after its lease. */
  lemma {:induction false} OthersOnlySweep(
    policy: Policy, calendar: Calendar, run: seq<Ledger>, i: nat, j: nat, id: RequestId)
    requires i <= j < |run| && id in run[i].requests
    requires forall k: nat | i <= k < j :: OthersAt(policy, calendar, run, k, id)
    ensures run[i].now <= run[j].now && OthersMay(run[i].requests, run[j].requests, id, run[j].now)
  {
    if i < j {
      OthersOnlySweep(policy, calendar, run, i, j - 1, id);
      assert OthersAt(policy, calendar, run, j - 1, id);
      OthersStepOnlySweeps(policy, calendar, run[j - 1], run[j], id);
    }
  }

  lemma OthersStepOnlySweeps(policy: Policy, calendar: Calendar, ledger: Ledger, next: Ledger, id: RequestId)
    requires NextForOthers(policy, calendar, ledger, next, id) && id in ledger.requests
    ensures ledger.now <= next.now && OthersMay(ledger.requests, next.requests, id, next.now)
  {
  }

  /** The step admits a start: a refused one adds no row. */
  ghost predicate AdmitsAt(run: seq<Ledger>, k: nat)
    requires k + 1 < |run|
  {
    run[k + 1].requests.Keys != run[k].requests.Keys
  }

  /** No start was admitted when the lease had ended. */
  ghost predicate NoLateStart(run: seq<Ledger>, i: nat, j: nat, expires: int)
    requires i <= j < |run|
  {
    forall k: nat | i <= k < j && AdmitsAt(run, k) :: run[k].now < expires
  }

  lemma OneMoreStep(run: seq<Ledger>, i: nat, j: nat, expires: int)
    requires i < j < |run|
    ensures NoLateStart(run, i, j, expires) <==>
              NoLateStart(run, i, j - 1, expires) && (AdmitsAt(run, j - 1) ==> run[j - 1].now < expires)
  {
  }

  lemma StartsSweepExactly(policy: Policy, calendar: Calendar, ledger: Ledger, next: Ledger, id: RequestId)
    requires NextForOthers(policy, calendar, ledger, next, id) && IsRunning(ledger.requests, id)
    ensures id in next.requests
    ensures next.requests[id].status == Running <==>
              next.requests.Keys == ledger.requests.Keys || ledger.now < ledger.requests[id].expires
  {
    var a :| Enabled(ledger, a) && !Settles(a, id) && next == Apply(policy, calendar, ledger, a);
    if a.Begin? && next.requests != ledger.requests {
      assert a.id in next.requests.Keys && a.id !in ledger.requests.Keys;
    }
  }

  /** A request that nobody settles is still running exactly while no start has been admitted after its lease. */
  lemma {:induction false} UnsettledRequestsRunExactly(
    policy: Policy, calendar: Calendar, run: seq<Ledger>, i: nat, j: nat, id: RequestId)
    requires i <= j < |run| && IsRunning(run[i].requests, id)
    requires forall k: nat | i <= k < j :: OthersAt(policy, calendar, run, k, id)
    ensures IsRunning(run[j].requests, id) <==> NoLateStart(run, i, j, run[i].requests[id].expires)
  {
    if i < j {
      UnsettledRequestsRunExactly(policy, calendar, run, i, j - 1, id);
      OthersOnlySweep(policy, calendar, run, i, j - 1, id);
      assert OthersAt(policy, calendar, run, j - 1, id);
      OthersStepOnlySweeps(policy, calendar, run[j - 1], run[j], id);
      if IsRunning(run[j - 1].requests, id) {
        StartsSweepExactly(policy, calendar, run[j - 1], run[j], id);
      }
      OneMoreStep(run, i, j, run[i].requests[id].expires);
    }
  }

  lemma UnlimitedAdmits(
    requests: map<RequestId, Request>, calendar: Calendar, now: int, id: RequestId, reserved: Amount)
    ensures AfterStart(requests, Policy(true, 0, Amount(0, 0)), calendar, now, id, reserved)
         == Swept(requests, now)[id := Request(now, now + LEASE_SECONDS, Running, reserved, Amount(0, 0), 0)]
  {
  }

  lemma StepsOfWitness(policy: Policy, calendar: Calendar) returns (run: seq<Ledger>)
    requires policy == Policy(true, 0, Amount(0, 0))
    ensures |run| == 4 && run[0].requests == map[]
    ensures Next(policy, calendar, run[0], run[1]) && IsRunning(run[1].requests, 0)
    ensures NextForOthers(policy, calendar, run[1], run[2], 0) && NextForOthers(policy, calendar, run[2], run[3], 0)
    ensures 0 in run[3].requests && run[3].requests[0].status == Failed
  {
    var amount, none := Amount(1, 0), Amount(0, 0);
    var first := Request(0, 300, Running, amount, none, 0);
    var l0, l1, l2 := Ledger(0, map[]), Ledger(0, map[0 := first]), Ledger(300, map[0 := first]);
    var l3 := Ledger(300, Swept(l2.requests, 300)[1 := Request(300, 600, Running, amount, none, 0)]);
    UnlimitedAdmits(l0.requests, calendar, 0, 0, amount);
    UnlimitedAdmits(l2.requests, calendar, 300, 1, amount);
    assert Swept(l0.requests, 0) == map[];
    assert Enabled(l0, Begin(0, amount, 1)) && l1 == Apply(policy, calendar, l0, Begin(0, amount, 1));
    assert Enabled(l1, Tick(300)) && l2 == Apply(policy, calendar, l1, Tick(300));
    assert Enabled(l2, Begin(1, amount, 1)) && l3 == Apply(policy, calendar, l2, Begin(1, amount, 1));
    run := [l0, l1, l2, l3];
  }

  /** A run in which a request loses its settlement: its lease of 300 seconds is over when the next start comes. */
  lemma StartSweepsExpiredRequest() returns (policy: Policy, calendar: Calendar, run: seq<Ledger>)
    ensures IsRun(policy, calendar, run) && |run| == 4
    ensures IsRunning(run[1].requests, 0) && (forall k: nat | 1 <= k < 3 :: OthersAt(policy, calendar, run, k, 0))
    ensures 0 in run[3].requests && run[3].requests[0].status == Failed
    ensures forall a | Settles(a, 0) :: !Enabled(run[3], a)
  {
    policy, calendar := Policy(true, 0, Amount(0, 0)), Calendar(t => t, t => t);
    run := StepsOfWitness(policy, calendar);
    forall i: nat | i + 1 < |run| ensures StepAt(policy, calendar, run, i) {
      assert i == 0 || i == 1 || i == 2;
    }
    forall k: nat | 1 <= k < 3 ensures OthersAt(policy, calendar, run, k, 0) {
      assert k == 1 || k == 2;
    }
  }
}
