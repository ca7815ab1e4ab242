/** The circuit breaker of the federation layer. Time is in milliseconds.

  It counts consecutive failures; there is no sliding time window.
 */
module CircuitBreaker {

  datatype State = Closed | Open | HalfOpen

  datatype Config = Config(failureThreshold: int, resetTimeoutMs: int, halfOpenSuccessThreshold: int)

  datatype Breaker = Breaker(state: State, failureCount: nat, successCount: nat, lastFailureTime: int)

  const INITIAL := Breaker(Closed, 0, 0, 0)

  function Observe(b: Breaker, now: int, config: Config): Breaker {
    if b.state == Open && now - b.lastFailureTime >= config.resetTimeoutMs then b.(state := HalfOpen, successCount := 0) else b
  }

  function Succeed(b: Breaker, config: Config): Breaker {
    match b.state
    case HalfOpen =>
      if b.successCount + 1 >= config.halfOpenSuccessThreshold then b.(state := Closed, failureCount := 0, successCount := 0)
      else b.(successCount := b.successCount + 1)
    case Closed => b.(failureCount := 0)
    case Open => b
  }

  function Fail(b: Breaker, now: int, config: Config): Breaker {
    var counted := b.(failureCount := b.failureCount + 1, lastFailureTime := now);
    if b.state == HalfOpen then counted.(state := Open, successCount := 0)
    else if counted.failureCount >= config.failureThreshold then counted.(state := Open)
    else counted
  }

  class Service {
    var state: State
    var failureCount: nat
    var successCount: nat
    var lastFailureTime: int
    const config: Config

    constructor (config: Config)
      ensures this.config == config && Value() == INITIAL
    {
      this.config := config;
      state, failureCount, successCount, lastFailureTime := Closed, 0, 0, 0;
    }

    function Value(): Breaker
      reads this
    {
      Breaker(state, failureCount, successCount, lastFailureTime)
    }

    /** Reading the state may itself move an open breaker to half-open. */
    method GetState(now: int) returns (current: State)
      modifies this
      ensures Value() == Observe(old(Value()), now, config) && current == state
    {
      if state == Open {
        if now - lastFailureTime >= config.resetTimeoutMs {
          state := HalfOpen;
          successCount := 0;
        }
      }
      return state;
    }

    method IsCallPermitted(now: int) returns (permitted: bool)
      modifies this
      ensures Value() == Observe(old(Value()), now, config)
      ensures permitted <==> state != Open
    {
      var current := GetState(now);
      return current == Closed || current == HalfOpen;
    }

    method RecordSuccess()
      modifies this
      ensures Value() == Succeed(old(Value()), config)
    {
      if state == HalfOpen {
        successCount := successCount + 1;
        if successCount >= config.halfOpenSuccessThreshold {
          state := Closed;
          failureCount := 0;
          successCount := 0;
        }
      } else if state == Closed {
        failureCount := 0;
      }
    }

    method RecordFailure(now: int)
      modifies this
      ensures Value() == Fail(old(Value()), now, config)
    {
      failureCount := failureCount + 1;
      lastFailureTime := now;
      if state == HalfOpen {
        state := Open;
        successCount := 0;
      } else if failureCount >= config.failureThreshold {
        state := Open;
      }
    }

    method Reset()
      modifies this
      ensures Value() == INITIAL
    {
      state := Closed;
      failureCount := 0;
      successCount := 0;
      lastFailureTime := 0;
    }
  }

  // ---- Traces ----------------------------------------------------------------------

  datatype Event = Query(now: int) | Success | Failure(now: int) | ResetEvent

  function Step(b: Breaker, e: Event, config: Config): Breaker {
    match e
    case Query(now) => Observe(b, now, config)
    case Success => Succeed(b, config)
    case Failure(now) => Fail(b, now, config)
    case ResetEvent => INITIAL
  }

  function Run(trace: seq<Event>, config: Config): Breaker {
    if trace == [] then INITIAL else Step(Run(trace[..|trace| - 1], config), trace[|trace| - 1], config)
  }

  /** Failures after the last success or reset. */
  function ConsecutiveFailures(trace: seq<Event>): nat {
    if trace == [] then 0
    else
      match trace[|trace| - 1]
      case Success => 0
      case ResetEvent => 0
      case Failure(_) => ConsecutiveFailures(trace[..|trace| - 1]) + 1
      case Query(_) => ConsecutiveFailures(trace[..|trace| - 1])
  }

  function Successes(trace: seq<Event>): nat {
    if trace == [] then 0 else Successes(trace[..|trace| - 1]) + if trace[|trace| - 1].Success? then 1 else 0
  }

  /** The time of the last failure since the last reset. */
  function LastFailure(trace: seq<Event>): int {
    if trace == [] then 0
    else
      match trace[|trace| - 1]
      case ResetEvent => 0
      case Failure(now) => now
      case _ => LastFailure(trace[..|trace| - 1])
  }

  /** The breaker turned half-open at event `k` and has seen neither failure nor reset since. */
  ghost predicate HalfOpenSince(trace: seq<Event>, k: nat, config: Config) {
    && k < |trace|
    && trace[k].Query?
    && Run(trace[..k], config).state == Open
    && trace[k].now - LastFailure(trace[..k]) >= config.resetTimeoutMs
    && (forall m | k < m < |trace| :: trace[m].Query? || trace[m].Success?)
    && Run(trace, config).successCount == Successes(trace[k + 1..])
  }

  lemma SuccessesAppend(trace: seq<Event>, e: Event)
    ensures Successes(trace + [e]) == Successes(trace) + if e.Success? then 1 else 0
  {
    assert (trace + [e])[..|trace|] == trace;
  }

  /** The counters say how the breaker got where it is. */
  lemma {:induction false} CountersExplainState(trace: seq<Event>, config: Config)
    ensures var b := Run(trace, config);
            && b.lastFailureTime == LastFailure(trace)
            && (b.state == Closed ==> b.failureCount == ConsecutiveFailures(trace))
            && (b.state == Closed && b.failureCount > 0 ==> b.failureCount < config.failureThreshold)
            && (b.state != Closed ==> b.failureCount >= config.failureThreshold)
            && (b.state != HalfOpen ==> b.successCount == 0)
  {
    if trace != [] {
      CountersExplainState(trace[..|trace| - 1], config);
    }
  }

  /** A half-open breaker stays so through queries and successes only, which are counted. */
  lemma HalfOpenLonger(trace: seq<Event>, e: Event, k: nat, config: Config)
    requires HalfOpenSince(trace, k, config) && Run(trace, config).state == HalfOpen
    requires Run(trace + [e], config).state == HalfOpen
    ensures HalfOpenSince(trace + [e], k, config)
  {
    var longer := trace + [e];
    assert longer[..|trace|] == trace && longer[..k] == trace[..k] && longer[k] == trace[k];
    assert longer[k + 1..] == trace[k + 1..] + [e];
    SuccessesAppend(trace[k + 1..], e);
    CountersExplainState(trace, config);
    assert forall m | k < m < |trace| :: longer[m] == trace[m];
    hide Successes, LastFailure;
  }

  lemma {:induction false} HalfOpenHistory(trace: seq<Event>, config: Config)
    requires Run(trace, config).state == HalfOpen
    ensures exists k: nat :: HalfOpenSince(trace, k, config)
  {
    var n := |trace| - 1;
    var before := trace[..n];
    assert trace == before + [trace[n]];
    if Run(before, config).state == HalfOpen {
      HalfOpenHistory(before, config);
      hide Run, HalfOpenSince;
      var k: nat :| HalfOpenSince(before, k, config);
      HalfOpenLonger(before, trace[n], k, config);
    } else {
      CountersExplainState(before, config);
      assert trace[n + 1..] == [];
      assert HalfOpenSince(trace, n, config);
    }
  }

  /** Without a reset, closing takes the configured number of successes and no failure since half-open. */
  lemma ClosingTakesSuccesses(trace: seq<Event>, e: Event, config: Config)
    requires Run(trace, config).state != Closed && Run(trace + [e], config).state == Closed
    requires !e.ResetEvent?
    ensures e.Success?
    ensures exists k: nat :: HalfOpenSince(trace, k, config)
                     && Successes(trace[k + 1..] + [e]) == if config.halfOpenSuccessThreshold >= 1 then config.halfOpenSuccessThreshold else 1
  {
    assert (trace + [e])[..|trace|] == trace;
    HalfOpenHistory(trace, config);
    var k: nat :| HalfOpenSince(trace, k, config);
    SuccessesAppend(trace[k + 1..], e);
    HalfOpenBelowThreshold(trace, config);
  }

  lemma {:induction false} HalfOpenBelowThreshold(trace: seq<Event>, config: Config)
    requires Run(trace, config).state == HalfOpen
    ensures var b := Run(trace, config); b.successCount == 0 || b.successCount < config.halfOpenSuccessThreshold
  {
    if trace != [] && Run(trace[..|trace| - 1], config).state == HalfOpen {
      HalfOpenBelowThreshold(trace[..|trace| - 1], config);
    }
  }

  /** No call is permitted within the timeout after the failure that left the breaker open. */
  lemma {:induction false} OpenHoldsForTimeout(trace: seq<Event>, failedAt: int, since: seq<Event>, config: Config)
    requires Run(trace + [Failure(failedAt)], config).state == Open
    requires forall m | 0 <= m < |since| :: since[m].Success? || (since[m].Query? && since[m].now - failedAt < config.resetTimeoutMs)
    ensures Run(trace + [Failure(failedAt)] + since, config).state == Open
    ensures Run(trace + [Failure(failedAt)] + since, config).lastFailureTime == failedAt
    decreases |since|
  {
    var start := trace + [Failure(failedAt)];
    if since == [] {
      assert start + since == start;
      assert start[..|trace|] == trace;
    } else {
      var n := |since| - 1;
      OpenHoldsForTimeout(trace, failedAt, since[..n], config);
      assert (start + since)[..|start + since| - 1] == start + since[..n];
    }
  }

  function InARow(n: nat): seq<Event> {
    seq(n, _ => Success)
  }

  lemma {:induction false} TrialsCounted(trace: seq<Event>, now: int, n: nat, config: Config)
    requires Run(trace, config).state == Open && now - LastFailure(trace) >= config.resetTimeoutMs
    requires n == 0 || n < config.halfOpenSuccessThreshold
    ensures var b := Run(trace + [Query(now)] + InARow(n), config); b.state == HalfOpen && b.successCount == n
    decreases n
  {
    var asked := trace + [Query(now)];
    if n == 0 {
      CountersExplainState(trace, config);
      assert asked + InARow(0) == asked && asked[..|trace|] == trace;
    } else {
      TrialsCounted(trace, now, n - 1, config);
      assert (asked + InARow(n))[..|asked| + n - 1] == asked + InARow(n - 1);
    }
  }

  /** An open breaker recovers: once the timeout has passed calls are let through again, and after the configured number
      of successes, one at least, it is closed with nothing held against it. */
  lemma {:induction false} Recovers(trace: seq<Event>, now: int, config: Config)
    requires Run(trace, config).state == Open && now - LastFailure(trace) >= config.resetTimeoutMs
    ensures Run(trace + [Query(now)], config).state == HalfOpen
    ensures var needed := if config.halfOpenSuccessThreshold < 1 then 1 else config.halfOpenSuccessThreshold;
            var b := Run(trace + [Query(now)] + InARow(needed), config);
            b.state == Closed && b.failureCount == 0 && b.successCount == 0
  {
    var needed := if config.halfOpenSuccessThreshold < 1 then 1 else config.halfOpenSuccessThreshold;
    var asked := trace + [Query(now)];
    TrialsCounted(trace, now, 0, config);
    TrialsCounted(trace, now, needed - 1, config);
    assert asked + InARow(0) == asked;
    assert (asked + InARow(needed))[..|asked| + needed - 1] == asked + InARow(needed - 1);
  }

  /** The breaker opens at the failure that makes the threshold-th in a row, and not before. */
  lemma OpensAtThreshold(trace: seq<Event>, now: int, config: Config)
    requires Run(trace, config).state == Closed
    ensures Run(trace + [Failure(now)], config).state == Open <==> ConsecutiveFailures(trace) + 1 >= config.failureThreshold
  {
    CountersExplainState(trace, config);
    assert (trace + [Failure(now)])[..|trace|] == trace;
  }
}
