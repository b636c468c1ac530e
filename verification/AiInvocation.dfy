/** One AI invocation: its reservation, its bounded retries and its settlement. */
module AiInvocation {
  import opened Prelude
  import opened QuotaLedger

  const TOKENS_PER_IMAGE: nat := 16_384
  const MILLION: int := 1_000_000

  datatype Options = Options(
    maxAttempts: int,
    baseRetryDelay: int,
    maxRetryDelay: int,
    inputRate: int,
    outputRate: int)
  {
    predicate Valid() {
      1 <= maxAttempts <= MAX_CONFIGURED_ATTEMPTS && 0 < baseRetryDelay <= maxRetryDelay <= MAX_INT64
      && 0 <= inputRate <= MAX_INT64 && 0 <= outputRate <= MAX_INT64
    }
  }

  // ---- Prices -----------------------------------------------------------------------------------------------------

  /** The price of tokens at a rate per million, rounded up; the product is exact and only the result saturates. */
  function CeilDivCost(tokens: int, rate: int): (cost: int)
    ensures 0 <= cost <= MAX_INT64
  {
    if tokens <= 0 || rate <= 0 then 0 else Saturated((tokens * rate + MILLION - 1) / MILLION)
  }

  function CalculateCostMicros(prompt: int, completion: int, options: Options): (cost: int)
    ensures 0 <= cost <= MAX_INT64
  {
    var input := CeilDivCost(if prompt < 0 then 0 else prompt, options.inputRate);
    var output := CeilDivCost(if completion < 0 then 0 else completion, options.outputRate);
    if input > MAX_INT64 - output then MAX_INT64 else input + output
  }

  function SaturatingMultiply(value: int, factor: int): int {
    if value <= 0 || factor <= 0 then 0
    else if value > MAX_INT64 / factor then MAX_INT64
    else value * factor
  }

  /** The division test is exact: the product saturates precisely when it would not fit. */
  lemma SaturatingMultiplyIsExact(value: int, factor: int)
    requires value > 0 && factor > 0
    ensures SaturatingMultiply(value, factor) == Saturated(value * factor)
  {
    var quotient := MAX_INT64 / factor;
    assert quotient * factor <= MAX_INT64 < (quotient + 1) * factor;
    if value > quotient {
      assert value * factor >= (quotient + 1) * factor by { TimesIsMonotone(quotient + 1, value, factor); }
    } else {
      TimesIsMonotone(value, quotient, factor);
    }
  }

  lemma TimesIsMonotone(a: int, b: int, factor: int)
    requires a <= b && factor >= 0
    ensures a * factor <= b * factor
  {
  }

  /** The price is the least whole number of micros that covers the tokens, when that number fits. */
  lemma PriceCoversTokens(tokens: int, rate: int, micros: int)
    requires tokens > 0 && rate > 0 && CeilDivCost(tokens, rate) < MAX_INT64
    ensures micros * MILLION >= tokens * rate <==> micros >= CeilDivCost(tokens, rate)
  {
    var product, cost := tokens * rate, CeilDivCost(tokens, rate);
    assert product > 0 by { TimesIsMonotone(1, tokens, rate); }
  }

  /** The least whole number of micros that covers the tokens at a rate per million; none are needed for no tokens. */
  predicate LeastCovering(micros: int, tokens: int, rate: int) {
    0 <= micros && tokens * rate <= micros * MILLION && (0 < micros ==> (micros - 1) * MILLION < tokens * rate)
  }

  /** The price of prompt tokens at the input rate and completion tokens at the output rate, each rounded up. */
  ghost predicate IsPrice(cost: int, prompt: int, completion: int, options: Options) {
    exists input, output :: IsPriceOf(cost, input, prompt, output, completion, options)
  }

  predicate IsPriceOf(cost: int, input: int, prompt: int, output: int, completion: int, options: Options) {
    && LeastCovering(input, prompt, options.inputRate) && LeastCovering(output, completion, options.outputRate)
    && cost == Saturated(input + output)
  }

  lemma RoundedUpIsLeast(tokens: int, rate: int) returns (micros: int)
    requires rate >= 0
    ensures LeastCovering(micros, tokens, rate)
    ensures CeilDivCost(if tokens < 0 then 0 else tokens, rate) == Saturated(micros)
  {
    if tokens <= 0 || rate == 0 {
      micros := 0;
      if tokens < 0 {
        TimesIsMonotone(tokens, 0, rate);
      }
    } else {
      micros := (tokens * rate + MILLION - 1) / MILLION;
      assert tokens * rate > 0 by { TimesIsMonotone(1, tokens, rate); }
    }
  }

  /** What the store is charged is a price of the two kinds of tokens at their own rates. */
  lemma CostIsPrice(prompt: int, completion: int, options: Options)
    requires options.Valid()
    ensures IsPrice(CalculateCostMicros(prompt, completion, options), prompt, completion, options)
  {
    var input := RoundedUpIsLeast(prompt, options.inputRate);
    var output := RoundedUpIsLeast(completion, options.outputRate);
    assert IsPriceOf(CalculateCostMicros(prompt, completion, options), input, prompt, output, completion, options);
  }

  lemma LeastIsUnique(first: int, second: int, tokens: int, rate: int)
    requires LeastCovering(first, tokens, rate) && LeastCovering(second, tokens, rate)
    ensures first == second
  {
    if first < second {
      TimesIsMonotone(first, second - 1, MILLION);
    } else if second < first {
      TimesIsMonotone(second, first - 1, MILLION);
    }
  }

  /** Tokens and rates leave one price only. */
  lemma PriceIsUnique(first: int, second: int, prompt: int, completion: int, options: Options)
    requires IsPrice(first, prompt, completion, options) && IsPrice(second, prompt, completion, options)
    ensures first == second
  {
    var input, output :| IsPriceOf(first, input, prompt, output, completion, options);
    var other, another :| IsPriceOf(second, other, prompt, another, completion, options);
    LeastIsUnique(input, other, prompt, options.inputRate);
    LeastIsUnique(output, another, completion, options.outputRate);
  }

  /** Below saturation a price covers both kinds of tokens at their rates, and is less than two micros above that. */
  lemma PriceIsClose(cost: int, prompt: int, completion: int, options: Options)
    requires IsPrice(cost, prompt, completion, options) && cost < MAX_INT64 && prompt >= 0 && completion >= 0
    requires options.Valid()
    ensures var exact := prompt * options.inputRate + completion * options.outputRate;
            exact <= cost * MILLION < exact + 2 * MILLION
    ensures completion == 0 ==> LeastCovering(cost, prompt, options.inputRate)
    ensures prompt == 0 ==> LeastCovering(cost, completion, options.outputRate)
  {
    var input, output :| IsPriceOf(cost, input, prompt, output, completion, options);
    TimesIsMonotone(0, prompt, options.inputRate);
    TimesIsMonotone(0, completion, options.outputRate);
    if completion == 0 {
      LeastIsUnique(output, 0, completion, options.outputRate);
    }
    if prompt == 0 {
      LeastIsUnique(input, 0, prompt, options.inputRate);
    }
  }

  lemma CeilDivIsMonotone(fewer: int, more: int, rate: int)
    requires fewer <= more
    ensures CeilDivCost(fewer, rate) <= CeilDivCost(more, rate)
  {
    if fewer > 0 && rate > 0 {
      TimesIsMonotone(fewer, more, rate);
      DivideIsMonotone(fewer * rate + MILLION - 1, more * rate + MILLION - 1);
    }
  }

  lemma DivideIsMonotone(a: int, b: int)
    requires a <= b
    ensures a / MILLION <= b / MILLION
  {
  }

  /** Usage within the request's own estimate never costs more than its reservation, saturation included. */
  lemma UsageWithinEstimateIsReserved(options: Options, prompt: int, completion: int, estimated: int, maxOutput: int)
    requires options.maxAttempts >= 1 && prompt <= estimated && completion <= maxOutput
    ensures CalculateCostMicros(prompt, completion, options)
         <= SaturatingMultiply(CalculateCostMicros(estimated, maxOutput, options), options.maxAttempts)
  {
    CeilDivIsMonotone(if prompt < 0 then 0 else prompt, if estimated < 0 then 0 else estimated, options.inputRate);
    CeilDivIsMonotone(
      if completion < 0 then 0 else completion, if maxOutput < 0 then 0 else maxOutput, options.outputRate);
    var cost := CalculateCostMicros(estimated, maxOutput, options);
    assert CalculateCostMicros(prompt, completion, options) <= cost;
    if cost > 0 {
      SaturatingMultiplyIsExact(cost, options.maxAttempts);
      TimesIsMonotone(1, options.maxAttempts, cost);
    }
  }

  datatype PartKind = TextPart | ImagePart

  function Images(messages: seq<seq<PartKind>>): nat {
    if messages == [] then 0 else ImagesIn(messages[0]) + Images(messages[1..])
  }

  function ImagesIn(parts: seq<PartKind>): nat {
    if parts == [] then 0 else (if parts[0] == ImagePart then 1 else 0) + ImagesIn(parts[1..])
  }

  method EstimateInputTokens(inputBytes: int, messages: seq<seq<PartKind>>) returns (tokens: int)
    ensures tokens == if inputBytes + TOKENS_PER_IMAGE * Images(messages) < 1 then 1
                      else inputBytes + TOKENS_PER_IMAGE * Images(messages)
  {
    tokens := inputBytes;
    for i := 0 to |messages|
      invariant tokens + TOKENS_PER_IMAGE * Images(messages[i..]) == inputBytes + TOKENS_PER_IMAGE * Images(messages)
    {
      var parts := messages[i];
      ghost var before := tokens;
      for j := 0 to |parts|
        invariant tokens + TOKENS_PER_IMAGE * ImagesIn(parts[j..]) == before + TOKENS_PER_IMAGE * ImagesIn(parts)
      {
        if parts[j] == ImagePart {
          tokens := tokens + TOKENS_PER_IMAGE;
        }
      }
    }
    if tokens < 1 {
      tokens := 1;
    }
  }

  // ---- Retries -----------------------------------------------------------------------------------------------------

  /** Two's complement of 64 bits. */
  function Wrapped(value: int): int {
    (value + MAX_INT64 + 1) % (2 * (MAX_INT64 + 1)) - (MAX_INT64 + 1)
  }

  function Doubled(delay: int, times: nat): int {
    if times == 0 then delay else 2 * Doubled(delay, times - 1)
  }

  /** The shift wraps around like any machine shift. */
  function RetryDelay(attempt: nat, providerDelay: int, options: Options): int
    requires attempt >= 1
  {
    if providerDelay > 0 then (if providerDelay > options.maxRetryDelay then options.maxRetryDelay else providerDelay)
    else
      var delay := Wrapped(Doubled(options.baseRetryDelay, attempt - 1));
      if delay > options.maxRetryDelay then options.maxRetryDelay else delay
  }

  const TURN: int := 2 * (MAX_INT64 + 1)

  /**
   * The shift keeps the doubled delay, or turns it into one that
   * is capped all the same; the turns are those of 64 bits.
   */
  predicate ShiftIsHarmless(attempt: nat, base: int, cap: int) {
    match attempt
    case 1 => true
    case 2 => 2 * base <= MAX_INT64
    case 3 => 4 * base <= MAX_INT64 || cap <= 4 * base - TURN <= MAX_INT64
    case 4 =>
      8 * base <= MAX_INT64 || cap <= 8 * base - TURN <= MAX_INT64
      || cap <= 8 * base - 2 * TURN <= MAX_INT64 || cap <= 8 * base - 3 * TURN <= MAX_INT64
    case _ => false
  }

  lemma WrappedByTurns(value: int, turns: int)
    requires -MAX_INT64 - 1 <= value - turns * TURN <= MAX_INT64
    ensures Wrapped(value) == value - turns * TURN
  {
    var shifted := value - turns * TURN + MAX_INT64 + 1;
    assert value + MAX_INT64 + 1 == turns * TURN + shifted && 0 <= shifted < TURN;
    assert (turns * TURN + shifted) % TURN == shifted;
  }

  lemma TurnsOf(base: int, factor: int) returns (turns: int)
    requires 0 < base <= MAX_INT64 && (factor == 2 || factor == 4 || factor == 8)
    ensures 0 <= turns <= factor / 2 && -MAX_INT64 - 1 <= factor * base - turns * TURN <= MAX_INT64
  {
    turns := 0;
    while factor * base - turns * TURN > MAX_INT64
      invariant 0 <= turns <= factor / 2 && -MAX_INT64 - 1 <= factor * base - turns * TURN
      decreases factor - turns
    {
      turns := turns + 1;
    }
  }

  lemma DoublingIsCapped(attempt: nat, options: Options)
    requires options.Valid() && 1 <= attempt < options.maxAttempts
    ensures var doubled, cap := Doubled(options.baseRetryDelay, attempt - 1), options.maxRetryDelay;
            RetryDelay(attempt, 0, options) == (if doubled > cap then cap else doubled)
            <==> ShiftIsHarmless(attempt, options.baseRetryDelay, cap)
  {
    var base := options.baseRetryDelay;
    if attempt == 1 {
      WrappedByTurns(base, 0);
    } else {
      var factor := if attempt == 2 then 2 else if attempt == 3 then 4 else 8;
      DoublingMultiplies(base, attempt - 1);
      var turns := TurnsOf(base, factor);
      WrappedByTurns(factor * base, turns);
    }
  }

  /**
   * Between the attempts the loop can make, the delay is the capped doubling exactly when the shift is harmless; a
   * delay that the provider asks for is kept up to the cap.
   */
  lemma RetryDelayIsCappedDoubling(attempt: nat, providerDelay: int, options: Options)
    requires options.Valid() && 1 <= attempt < options.maxAttempts
    ensures var doubled, cap := Doubled(options.baseRetryDelay, attempt - 1), options.maxRetryDelay;
            var delay := RetryDelay(attempt, providerDelay, options);
            if providerDelay > 0 then 0 < delay <= cap && delay <= providerDelay && delay in {cap, providerDelay}
            else
              delay == (if doubled > cap then cap else doubled)
              <==> ShiftIsHarmless(attempt, options.baseRetryDelay, cap)
  {
    DoublingIsCapped(attempt, options);
  }

  lemma DoublingMultiplies(base: int, times: nat)
    requires times <= 3
    ensures Doubled(base, times)
              == (if times == 0 then 1 else if times == 1 then 2 else if times == 2 then 4 else 8) * base
  {
    if times > 0 {
      assert Doubled(base, times) == 2 * Doubled(base, times - 1);
      DoublingMultiplies(base, times - 1);
    }
  }

  /** Permitted options under which the wait before the third attempt is negative, and so no wait at all. */
  lemma LongDelaysWrap() returns (options: Options)
    ensures options.Valid() && 2 < options.maxAttempts && options.baseRetryDelay == options.maxRetryDelay
    ensures RetryDelay(2, 0, options) < 0 && !ShiftIsHarmless(2, options.baseRetryDelay, options.maxRetryDelay)
  {
    options := Options(5, 0x4000_0000_0000_0000, 0x4000_0000_0000_0000, 0, 0);
    assert Doubled(options.baseRetryDelay, 1) == 2 * options.baseRetryDelay;
    WrappedByTurns(2 * options.baseRetryDelay, 1);
  }

  datatype Usage = Usage(prompt: int, completion: int, total: int)

  datatype Context = Live | TimedOut | Stopped

  /** What the provider answers an attempt. */
  datatype Reply = Output(usage: Usage, conforms: bool) | ProviderError(retryable: bool, stopped: bool)

  /** The foreign calls of an invocation, by attempt: the answers, the two contexts after them, and the waits. */
  datatype Script = Script(reply: nat -> Reply, attempt: nat -> Context, call: nat -> Context, wait: nat -> Context)

  /** An attempt that timed out is an error even when the provider reports none. */
  function Classified(script: Script, n: nat): Reply {
    var reply, context := script.reply(n), script.attempt(n);
    if reply.Output? && context == Live then reply
    else if context == TimedOut && script.call(n) != TimedOut then ProviderError(true, false)
    else if reply.ProviderError? then reply
    else if context == Stopped then ProviderError(false, true)
    else ProviderError(true, false)
  }

  /**
   * An attempt counts as an output exactly when the provider returned one in time; a timeout of the attempt alone may
   * be retried, an output after a stop may not, and otherwise the provider's error stands.
   */
  lemma AttemptsCountInTime(script: Script, n: nat)
    ensures Classified(script, n).Output? <==> script.reply(n).Output? && script.attempt(n) == Live
    ensures Classified(script, n).Output? ==> Classified(script, n) == script.reply(n)
    ensures script.attempt(n) == TimedOut && script.call(n) == Live ==>
              Classified(script, n) == ProviderError(true, false)
    ensures script.attempt(n) == Stopped && script.reply(n).Output? ==>
              Classified(script, n) == ProviderError(false, true)
    ensures script.attempt(n) != TimedOut && script.reply(n).ProviderError? ==>
              Classified(script, n) == script.reply(n)
  {
  }

  /** Whether the loop waits to try again after attempt n. */
  predicate Waits(script: Script, n: nat, maxAttempts: int) {
    var reply := Classified(script, n);
    reply.ProviderError? && reply.retryable && n < maxAttempts && script.call(n) == Live
  }

  /** The loop tries again after a timeout of the attempt alone, or an error the provider calls retryable. */
  predicate Retries(script: Script, n: nat, maxAttempts: int) {
    && n < maxAttempts && script.call(n) == Live && script.wait(n) == Live
    && (script.attempt(n) == TimedOut || (script.reply(n).ProviderError? && script.reply(n).retryable))
  }

  /** A failure counts as canceled when the last error, or what ended the last wait, was a cancellation. */
  predicate IsCanceled(script: Script, n: nat, maxAttempts: int) {
    if Waits(script, n, maxAttempts) then script.wait(n) == Stopped
    else Classified(script, n).ProviderError? && Classified(script, n).stopped
  }

  predicate ValidUsage(usage: Usage) {
    && 0 < usage.prompt <= MAX_INT32 && 0 < usage.completion <= MAX_INT32 && 0 < usage.total <= MAX_INT32
    && usage.prompt + usage.completion <= usage.total
  }

  predicate Succeeds(reply: Reply) {
    reply.Output? && reply.conforms && ValidUsage(reply.usage)
  }

  /** The provider returned a usable output while the attempt was still live. */
  predicate AnsweredInTime(script: Script, n: nat) {
    script.attempt(n) == Live && Succeeds(script.reply(n))
  }

  /** A request charged with what the answer used: its tokens, and their price. */
  ghost predicate ChargedFor(request: Request, usage: Usage, options: Options) {
    request.actual.tokens == usage.total && IsPrice(request.actual.cost, usage.prompt, usage.completion, options)
  }

  /** A whole number of times the price of the estimate, as far as it fits. */
  ghost predicate IsReservation(cost: int, estimated: int, maxOutput: int, options: Options) {
    exists price :: IsPrice(price, estimated, maxOutput, options) && cost == Saturated(price * options.maxAttempts)
  }

  /** What an invocation leaves in the ledger after its last attempt. */
  function Settlement(
    requests: map<RequestId, Request>, id: RequestId, attempts: int, reply: Reply, canceled: bool, options: Options)
    : map<RequestId, Request>
    requires id in requests
  {
    if Succeeds(reply)
    then Completed(requests, id, attempts,
           Amount(reply.usage.total, CalculateCostMicros(reply.usage.prompt, reply.usage.completion, options)))
    else FailedWith(requests, id, attempts, canceled)
  }

  /** The attempts of one invocation: each but the last is followed by another, the last by none. */
  method CallProvider(script: Script, options: Options) returns (attempts: nat, reply: Reply, canceled: bool)
    requires options.Valid()
    ensures 1 <= attempts <= options.maxAttempts && reply == Classified(script, attempts)
    ensures forall n | 1 <= n < attempts :: Retries(script, n, options.maxAttempts)
    ensures !Retries(script, attempts, options.maxAttempts)
    ensures canceled == IsCanceled(script, attempts, options.maxAttempts)
    ensures reply.Output? <==> script.reply(attempts).Output? && script.attempt(attempts) == Live
    ensures reply.Output? ==> reply == script.reply(attempts)
    ensures forall n | 1 <= n < attempts :: !(script.reply(n).Output? && script.attempt(n) == Live)
  {
    attempts := 0;
    while true
      invariant 0 <= attempts < options.maxAttempts
      invariant forall n | 1 <= n <= attempts :: Retries(script, n, options.maxAttempts)
      invariant forall n | 1 <= n <= attempts :: !(script.reply(n).Output? && script.attempt(n) == Live)
      decreases options.maxAttempts - attempts
    {
      attempts := attempts + 1;
      reply := Classified(script, attempts);
      if reply.Output? {
        return attempts, reply, false;
      }
      if !reply.retryable || attempts >= options.maxAttempts || script.call(attempts) != Live {
        return attempts, reply, reply.stopped;
      }
      if script.wait(attempts) != Live {
        return attempts, reply, script.wait(attempts) == Stopped;
      }
    }
  }

  /** What others make of the ledger while the provider is called, up to the given time: see OthersOnlySweep. */
  ghost predicate LeavesTo(
    meanwhile: map<RequestId, Request> -> map<RequestId, Request>, id: RequestId, later: int)
  {
    forall requests: map<RequestId, Request> | id in requests :: OthersMay(requests, meanwhile(requests), id, later)
  }

  /**
   * The whole invocation. A refused start calls no provider; an admitted one makes one to maxAttempts calls, during
   * which others start, settle and sweep requests of their own. It settles its request once unless a later start has
   * swept it, which cannot happen before its lease ends; a swept request stays charged with its reservation.
   */
  method Invoke(
    store: Store, policy: Policy, calendar: Calendar, now: int, id: RequestId, inputBytes: int,
    messages: seq<seq<PartKind>>, maxOutput: int, options: Options, script: Script,
    meanwhile: map<RequestId, Request> -> map<RequestId, Request>, ghost later: int)
    returns (started: bool, settled: bool, attempts: nat, ghost reserved: Amount)
    requires options.Valid() && id !in store.requests && inputBytes > 0 && maxOutput > 0
    requires inputBytes + TOKENS_PER_IMAGE * Images(messages) + maxOutput <= MAX_INT64
    requires LeavesTo(meanwhile, id, later)
    modifies store
    ensures started <==>
              policy.allowed && Admits(Swept(old(store.requests), now), policy, calendar, now, reserved)
    ensures !started ==> store.requests == old(store.requests) && attempts == 0 && !settled
    ensures started ==>
              && 1 <= attempts <= options.maxAttempts && !Retries(script, attempts, options.maxAttempts)
              && (forall n | 1 <= n < attempts :: Retries(script, n, options.maxAttempts))
              && var found := meanwhile(AfterStart(old(store.requests), policy, calendar, now, id, reserved));
                 id in found && (settled <==> found[id].status == Running)
                 && store.requests ==
                      if settled
                      then Settlement(found, id, attempts, Classified(script, attempts),
                                      IsCanceled(script, attempts, options.maxAttempts), options)
                      else found
    ensures started && settled ==>
              && id in store.requests
              && (store.requests[id].status == Succeeded <==> AnsweredInTime(script, attempts))
              && (AnsweredInTime(script, attempts) ==>
                    ChargedFor(store.requests[id], script.reply(attempts).usage, options))
    ensures IsReservation(reserved.cost, inputBytes + TOKENS_PER_IMAGE * Images(messages), maxOutput, options)
    ensures started && later < now + LEASE_SECONDS ==> settled
    ensures started && !settled ==>
              id in store.requests && store.requests[id].status == Failed
              && forall metric :: Accounted(store.requests[id], metric) == reserved.Of(metric)
    ensures var estimated := inputBytes + TOKENS_PER_IMAGE * Images(messages);
            reserved == Amount(
              SaturatingMultiply(estimated + maxOutput, options.maxAttempts),
              SaturatingMultiply(CalculateCostMicros(estimated, maxOutput, options), options.maxAttempts))
  {
    var estimated := EstimateInputTokens(inputBytes, messages);
    var reservation := Amount(
      SaturatingMultiply(estimated + maxOutput, options.maxAttempts),
      SaturatingMultiply(CalculateCostMicros(estimated, maxOutput, options), options.maxAttempts));
    reserved, attempts, settled := reservation, 0, false;
    ReservationIsValid(estimated, maxOutput, options);
    ReservationIsPriced(estimated, maxOutput, options);
    var refusal := store.Start(policy, calendar, now, id, reservation, options.maxAttempts);
    started := refusal.None?;
    if !started {
      return;
    }
    var reply, canceled;
    attempts, reply, canceled := CallProvider(script, options);
    store.requests := meanwhile(store.requests);
    var failure;
    if Succeeds(reply) {
      var cost := CalculateCostMicros(reply.usage.prompt, reply.usage.completion, options);
      CostIsPrice(reply.usage.prompt, reply.usage.completion, options);
      var actual := Amount(reply.usage.total, cost);
      failure := store.Complete(id, attempts, reply.usage.prompt, reply.usage.completion, actual);
    } else {
      failure := store.Fail(id, attempts, canceled);
    }
    settled := failure.None?;
  }

  lemma ReservationIsValid(estimated: int, maxOutput: int, options: Options)
    requires options.Valid() && estimated > 0 && maxOutput > 0
    ensures ValidStart(
              Amount(SaturatingMultiply(estimated + maxOutput, options.maxAttempts),
                     SaturatingMultiply(CalculateCostMicros(estimated, maxOutput, options), options.maxAttempts)),
              options.maxAttempts)
  {
    SaturatingMultiplyIsExact(estimated + maxOutput, options.maxAttempts);
    TimesIsMonotone(1, options.maxAttempts, estimated + maxOutput);
    var cost := CalculateCostMicros(estimated, maxOutput, options);
    if cost > 0 {
      SaturatingMultiplyIsExact(cost, options.maxAttempts);
      TimesIsMonotone(1, options.maxAttempts, cost);
    }
  }

  lemma ReservationIsPriced(estimated: int, maxOutput: int, options: Options)
    requires options.Valid()
    ensures IsReservation(SaturatingMultiply(CalculateCostMicros(estimated, maxOutput, options), options.maxAttempts),
                          estimated, maxOutput, options)
  {
    var price := CalculateCostMicros(estimated, maxOutput, options);
    CostIsPrice(estimated, maxOutput, options);
    if price > 0 {
      SaturatingMultiplyIsExact(price, options.maxAttempts);
    }
    assert IsPrice(price, estimated, maxOutput, options)
        && SaturatingMultiply(price, options.maxAttempts) == Saturated(price * options.maxAttempts);
  }
}
