/** Bounded retry with exponential backoff. Delays are real milliseconds. */
module Retry {

  /** An error as the retry rule sees it: a network fault in its message, an HTTP status. */
  datatype Fault = Fault(networkFault: bool, hasStatus: bool, status: int)

  datatype Attempt<T> = Value(value: T) | Failed(error: Fault)

  /** What withRetry returns or throws; `NothingTried` is the throw after the loop. */
  datatype Outcome<T> = Returned(value: T) | Thrown(error: Fault) | NothingTried

  datatype Config = Config(maxRetries: int, baseDelayMs: real, maxDelayMs: real, jitterFactor: real)

  predicate IsRetryable(error: Fault) {
    error.networkFault || (error.hasStatus && (error.status >= 500 || error.status == 408 || error.status == 429))
  }

  function PowerOfTwo(n: nat): real {
    if n == 0 then 1.0 else 2.0 * PowerOfTwo(n - 1)
  }

  function Min(a: real, b: real): real {
    if a < b then a else b
  }

  function Capped(attempt: nat, config: Config): real {
    Min(config.baseDelayMs * PowerOfTwo(attempt), config.maxDelayMs)
  }

  /** A product, named so that a proof can treat it as one quantity. */
  function Times(a: real, b: real): real {
    a * b
  }

  function Jittered(capped: real, jitter: real, random: real): real {
    capped + Times(Times(capped, jitter), random)
  }

  /** `random` is in [0, 1). */
  function CalculateDelay(attempt: nat, config: Config, random: real): real {
    Jittered(Capped(attempt, config), config.jitterFactor, random)
  }

  ghost predicate ValidConfig(config: Config) {
    config.baseDelayMs >= 0.0 && config.maxDelayMs >= 0.0 && config.jitterFactor >= 0.0
  }

  /** The first of the attempts at which the loop ends, looking from `from`. */
  function LastCall<T>(fn: nat -> Attempt<T>, config: Config, from: nat): (n: nat)
    requires from <= config.maxRetries
    ensures from <= n <= config.maxRetries
    ensures fn(n).Value? || n == config.maxRetries || !IsRetryable(fn(n).error)
    ensures forall k | from <= k < n :: fn(k).Failed? && IsRetryable(fn(k).error)
    decreases config.maxRetries - from
  {
    if fn(from).Value? || from == config.maxRetries || !IsRetryable(fn(from).error) then from
    else LastCall(fn, config, from + 1)
  }

  function Ending<T>(attempt: Attempt<T>): Outcome<T> {
    match attempt
    case Value(v) => Returned(v)
    case Failed(e) => Thrown(e)
  }

  /** The outcome of a retried call when the k-th try would give `fn(k)`. */
  function Retried<T>(fn: nat -> Attempt<T>, config: Config): Outcome<T> {
    if config.maxRetries < 0 then NothingTried else Ending(fn(LastCall(fn, config, 0)))
  }

  function Calls<T>(fn: nat -> Attempt<T>, config: Config): nat {
    if config.maxRetries < 0 then 0 else LastCall(fn, config, 0) + 1
  }

  /** The time spent waiting after the first `n` tries. */
  function TotalDelay(n: nat, config: Config, random: nat -> real): real {
    if n == 0 then 0.0 else TotalDelay(n - 1, config, random) + CalculateDelay(n - 1, config, random(n - 1))
  }

  method WithRetry<T(0)>(fn: nat -> Attempt<T>, config: Config, random: nat -> real)
    returns (outcome: Outcome<T>, calls: nat, waited: real)
    ensures outcome == Retried(fn, config) && calls == Calls(fn, config)
    ensures waited == TotalDelay(if calls == 0 then 0 else calls - 1, config, random)
  {
    calls, waited := 0, 0.0;
    var attempt := 0;
    while attempt <= config.maxRetries
      invariant attempt >= 0 && calls == attempt
      invariant config.maxRetries >= 0 ==> attempt <= config.maxRetries && LastCall(fn, config, 0) == LastCall(fn, config, attempt)
      invariant config.maxRetries < 0 ==> attempt == 0
      invariant waited == TotalDelay(attempt, config, random)
    {
      calls := calls + 1;
      match fn(attempt) {
        case Value(v) =>
          outcome := Returned(v);
          return;
        case Failed(error) =>
          if attempt == config.maxRetries || !IsRetryable(error) {
            outcome := Thrown(error);
            return;
          }
      }
      waited := waited + CalculateDelay(attempt, config, random(attempt));
      attempt := attempt + 1;
    }
    outcome := NothingTried;
  }

  /** The tries stay within the budget, only retryable failures are tried again, and the last try decides. */
  lemma {:induction false} RetryContract<T>(fn: nat -> Attempt<T>, config: Config)
    requires config.maxRetries >= 0
    ensures 1 <= Calls(fn, config) <= config.maxRetries + 1
    ensures forall k | 0 <= k < Calls(fn, config) - 1 :: fn(k).Failed? && IsRetryable(fn(k).error)
    ensures Retried(fn, config) == Ending(fn(Calls(fn, config) - 1))
    ensures Retried(fn, config).Thrown? ==>
              !IsRetryable(Retried(fn, config).error) || Calls(fn, config) == config.maxRetries + 1
    ensures Retried(fn, config).Returned? <==>
              exists k :: 0 <= k <= config.maxRetries && fn(k).Value? && forall j | 0 <= j < k :: fn(j).Failed? && IsRetryable(fn(j).error)
  {
    var n := LastCall(fn, config, 0);
    if fn(n).Failed? {
      forall k | 0 <= k <= config.maxRetries && fn(k).Value? ensures exists j :: 0 <= j < k && !(fn(j).Failed? && IsRetryable(fn(j).error)) {
        assert k > n;
        assert 0 <= n < k && !(fn(n).Failed? && IsRetryable(fn(n).error));
      }
    }
  }

  /** Network faults, server errors, timeouts and rate limits are worth another try. */
  predicate Transient(error: Fault) {
    error.networkFault || (error.hasStatus && (error.status in {408, 429} || 500 <= error.status))
  }

  /** There is a try after the first `k + 1` exactly when all of them failed for a passing reason and the budget allows. */
  lemma TriesAgain<T>(fn: nat -> Attempt<T>, config: Config, k: nat)
    requires config.maxRetries >= 0
    ensures Calls(fn, config) > k + 1 <==> k < config.maxRetries && forall j | 0 <= j <= k :: fn(j).Failed? && Transient(fn(j).error)
  {
    var n := LastCall(fn, config, 0);
    assert forall e :: IsRetryable(e) <==> Transient(e);
    if n <= k && forall j | 0 <= j <= k :: fn(j).Failed? && Transient(fn(j).error) {
      assert fn(n).Failed? && Transient(fn(n).error);
    }
  }

  /** The throw after the loop is reached exactly when the budget is negative. */
  lemma FinalThrowReached<T>(fn: nat -> Attempt<T>, config: Config)
    ensures Retried(fn, config).NothingTried? <==> config.maxRetries < 0
  {
  }

  lemma PowerOfTwoPositive(n: nat)
    ensures PowerOfTwo(n) >= 1.0
  {
  }

  lemma ProductNotNegative(a: real, b: real)
    requires a >= 0.0 && b >= 0.0
    ensures a * b >= 0.0
  {
  }

  lemma ProductMonotone(a: real, b: real, c: real)
    requires a >= 0.0 && b <= c
    ensures a * b <= a * c
  {
    ProductNotNegative(a, c - b);
    Distribute(a, b, c - b);
  }

  lemma Distribute(a: real, b: real, c: real)
    ensures a * (b + c) == a * b + a * c
  {
  }

  /** A delay stretched by the largest jitter. */
  function WithJitter(config: Config, delay: real): real {
    (1.0 + config.jitterFactor) * delay
  }

  lemma WithJitterAdds(config: Config, a: real, b: real)
    ensures WithJitter(config, a + b) == WithJitter(config, a) + WithJitter(config, b)
  {
    Distribute(1.0 + config.jitterFactor, a, b);
  }

  lemma WithJitterMonotone(config: Config, a: real, b: real)
    requires config.jitterFactor >= 0.0 && a <= b
    ensures WithJitter(config, a) <= WithJitter(config, b)
  {
    ProductMonotone(1.0 + config.jitterFactor, a, b);
  }

  lemma FractionOf(x: real, fraction: real)
    requires x >= 0.0 && 0.0 <= fraction < 1.0
    ensures 0.0 <= Times(x, fraction) <= x
  {
    ProductNotNegative(x, fraction);
    ProductMonotone(x, fraction, 1.0);
  }

  lemma WithJitterIs(config: Config, delay: real)
    ensures WithJitter(config, delay) == delay + Times(delay, config.jitterFactor)
  {
  }

  lemma TimesNotNegative(a: real, b: real)
    requires a >= 0.0 && b >= 0.0
    ensures Times(a, b) >= 0.0
  {
  }

  lemma JitteredBound(capped: real, config: Config, random: real)
    requires capped >= 0.0 && config.jitterFactor >= 0.0 && 0.0 <= random < 1.0
    ensures capped <= Jittered(capped, config.jitterFactor, random) <= WithJitter(config, capped)
  {
    hide WithJitter, Times;
    TimesNotNegative(capped, config.jitterFactor);
    FractionOf(Times(capped, config.jitterFactor), random);
    WithJitterIs(config, capped);
  }

  lemma CappedNotNegative(attempt: nat, config: Config)
    requires ValidConfig(config)
    ensures Capped(attempt, config) >= 0.0
  {
    PowerOfTwoPositive(attempt);
    ProductNotNegative(config.baseDelayMs, PowerOfTwo(attempt));
    hide PowerOfTwo;
  }

  lemma DelayBound(attempt: nat, config: Config, random: real)
    requires ValidConfig(config) && 0.0 <= random < 1.0
    ensures 0.0 <= Capped(attempt, config) <= CalculateDelay(attempt, config, random) <= WithJitter(config, Capped(attempt, config))
    ensures CalculateDelay(attempt, config, random) ==
            Capped(attempt, config) + Capped(attempt, config) * config.jitterFactor * random
  {
    CappedNotNegative(attempt, config);
    hide Capped, WithJitter;
    JitteredBound(Capped(attempt, config), config, random);
  }

  lemma Halved(a: real, b: real)
    ensures 2.0 * a <= 2.0 * b <==> a <= b
  {
  }

  /** The wait starts at the base delay and doubles with every try until it reaches the limit. */
  lemma BackoffDoubles(attempt: nat, config: Config)
    requires ValidConfig(config)
    ensures Capped(0, config) == if config.baseDelayMs < config.maxDelayMs then config.baseDelayMs else config.maxDelayMs
    ensures var twice := 2.0 * Capped(attempt, config);
            Capped(attempt + 1, config) == if twice < config.maxDelayMs then twice else config.maxDelayMs
  {
    var p := PowerOfTwo(attempt);
    PowerOfTwoPositive(attempt);
    ProductNotNegative(config.baseDelayMs, p);
    assert PowerOfTwo(attempt + 1) == 2.0 * p;
    assert config.baseDelayMs * (2.0 * p) == 2.0 * (config.baseDelayMs * p);
    hide PowerOfTwo;
  }

  /** The smaller of the geometric sum and of `n` full delays. */
  function DelayLimit(n: nat, config: Config): real {
    Min(config.baseDelayMs * (PowerOfTwo(n) - 1.0), n as real * config.maxDelayMs)
  }

  lemma GeometricStep(base: real, p: real)
    ensures base * (p - 1.0) + base * p == base * (2.0 * p - 1.0)
  {
    Distribute(base, p - 1.0, p);
  }

  lemma LinearStep(n: nat, limit: real)
    requires n > 0
    ensures (n - 1) as real * limit + limit == n as real * limit
  {
    Distribute(limit, (n - 1) as real, 1.0);
  }

  lemma DelayLimitStep(n: nat, config: Config)
    requires n > 0
    ensures DelayLimit(n - 1, config) + Capped(n - 1, config) <= DelayLimit(n, config)
  {
    GeometricStep(config.baseDelayMs, PowerOfTwo(n - 1));
    LinearStep(n, config.maxDelayMs);
    assert PowerOfTwo(n) == 2.0 * PowerOfTwo(n - 1);
    hide PowerOfTwo;
  }

  /** After `n` waits the total is within the geometric and the linear bound, jitter included. */
  lemma {:induction false} TotalDelayBound(n: nat, config: Config, random: nat -> real)
    requires ValidConfig(config)
    requires forall k :: 0.0 <= random(k) < 1.0
    ensures 0.0 <= TotalDelay(n, config, random) <= WithJitter(config, DelayLimit(n, config))
  {
    if n == 0 {
      assert DelayLimit(0, config) == 0.0;
    } else {
      hide CalculateDelay, DelayLimit, Capped, WithJitter;
      TotalDelayBound(n - 1, config, random);
      DelayBound(n - 1, config, random(n - 1));
      DelayLimitStep(n, config);
      WithJitterAdds(config, DelayLimit(n - 1, config), Capped(n - 1, config));
      WithJitterMonotone(config, DelayLimit(n - 1, config) + Capped(n - 1, config), DelayLimit(n, config));
    }
  }
}
