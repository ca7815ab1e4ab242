/** The client over whole runs: what it returns, told from the log of its cache and the trace of its breaker. */
module FederationRuns {
  import opened Options
  import opened FederationCache
  import opened FederationClient
  import opened CB = CircuitBreaker
  import Retry

  // ---- The breaker in a run -----------------------------------------------------------------

  /** A call at `start`: the breaker is asked, and hears how the call ended if it lets it through. */
  function Attempted(trace: seq<Event>, start: nat, finish: nat, ok: bool, config: CB.Config): seq<Event> {
    [Query(start)] +
    if CB.Run(trace + [Query(start)], config).state == Open then [] else [if ok then Success else Failure(finish)]
  }

  /** What an operation tells the breaker: nothing on a hit, or when the cache alone is touched. */
  function Told<V>(config: FederationClient.Config<V>, h: History<V>, trace: seq<Event>, op: Op<V>): seq<Event> {
    match op
    case FetchOp(id, start, finish, tries) =>
      if Live(h.client.store, FreshKey(config, id), start).Some? then []
      else Attempted(trace, start, finish, Obtained(config, tries).Some?, config.breaker)
    case MutateOp(supported, _, start, finish, writes) =>
      if supported then Attempted(trace, start, finish, Retry.Retried(writes, config.retry).Returned?, config.breaker) else []
    case InvalidateOp(_) => []
    case InvalidateAllOp => []
    case ResetOp => [ResetEvent]
  }

  function Trace<V>(config: FederationClient.Config<V>, ops: seq<Op<V>>): seq<Event> {
    if ops == [] then []
    else
      var n := |ops| - 1;
      var earlier := Trace(config, ops[..n]);
      earlier + Told(config, FederationClient.Run(config, ops[..n]), earlier, ops[n])
  }

  lemma TraceStep(trace: seq<Event>, e: Event, config: CB.Config)
    ensures CB.Run(trace + [e], config) == Step(CB.Run(trace, config), e, config)
  {
    assert (trace + [e])[..|trace|] == trace;
  }

  lemma AttemptedRun(trace: seq<Event>, start: nat, finish: nat, ok: bool, config: CB.Config)
    ensures var b := Observe(CB.Run(trace, config), start, config);
            CB.Run(trace + Attempted(trace, start, finish, ok, config), config) ==
            if b.state == Open then b else if ok then Succeed(b, config) else Fail(b, finish, config)
  {
    TraceStep(trace, Query(start), config);
    var asked := trace + [Query(start)];
    var e := if ok then Success else Failure(finish);
    TraceStep(asked, e, config);
    hide CB.Run;
    assert trace + ([Query(start)] + []) == asked;
    assert trace + ([Query(start)] + [e]) == asked + [e];
  }

  lemma ToldRun<V>(config: FederationClient.Config<V>, h: History<V>, trace: seq<Event>, op: Op<V>)
    requires h.client.breaker == CB.Run(trace, config.breaker)
    ensures FederationClient.Apply(config, h, op).client.breaker == CB.Run(trace + Told(config, h, trace, op), config.breaker)
  {
    hide FreshKey, StaleKey, Live, SetBoth, StaleData, Obtained, Retry.Retried, Observe, Succeed, Fail, CB.Run;
    match op
    case FetchOp(_, start, finish, tries) =>
      AttemptedRun(trace, start, finish, Obtained(config, tries).Some?, config.breaker);
      hide Attempted;
      assert trace + [] == trace;
    case MutateOp(_, _, start, finish, writes) =>
      AttemptedRun(trace, start, finish, Retry.Retried(writes, config.retry).Returned?, config.breaker);
      hide Attempted;
      assert trace + [] == trace;
    case ResetOp => TraceStep(trace, ResetEvent, config.breaker);
    case _ => assert trace + [] == trace;
  }

  /** In every run the breaker has seen exactly the misses and writes it let through, as they ended. */
  lemma {:induction false} BreakerSeesTheTrace<V>(config: FederationClient.Config<V>, ops: seq<Op<V>>)
    ensures FederationClient.Run(config, ops).client.breaker == CB.Run(Trace(config, ops), config.breaker)
  {
    if ops != [] {
      var n := |ops| - 1;
      BreakerSeesTheTrace(config, ops[..n]);
      ToldRun(config, FederationClient.Run(config, ops[..n]), Trace(config, ops[..n]), ops[n]);
      hide Told, FederationClient.Apply;
    }
  }

  // ---- Failures keep calls away --------------------------------------------------------------

  ghost predicate AskedBy(trace: seq<Event>, clock: nat) {
    forall m | 0 <= m < |trace| && trace[m].Query? :: trace[m].now <= clock
  }

  lemma {:induction false} AskedInTime<V>(config: FederationClient.Config<V>, ops: seq<Op<V>>)
    requires ProperRun(config, ops)
    ensures AskedBy(Trace(config, ops), FederationClient.Run(config, ops).clock)
  {
    if ops != [] {
      var n := |ops| - 1;
      ProperPrefix(config, ops, n);
      AskedInTime(config, ops[..n]);
      assert Proper(FederationClient.Run(config, ops[..n]).clock, ops[n]);
      hide ProperRun, AskedBy, FederationClient.Apply, Told, Proper;
      ToldInTime(config, FederationClient.Run(config, ops[..n]), Trace(config, ops[..n]), ops[n]);
    }
  }

  lemma ToldInTime<V>(config: FederationClient.Config<V>, h: History<V>, trace: seq<Event>, op: Op<V>)
    requires Proper(h.clock, op) && AskedBy(trace, h.clock)
    ensures AskedBy(trace + Told(config, h, trace, op), FederationClient.Apply(config, h, op).clock)
  {
    if op.FetchOp? { FetchShape(config, h, op); }
    if op.MutateOp? { MutateShape(config, h, op); }
    var told := Told(config, h, trace, op);
    var clock := FederationClient.Apply(config, h, op).clock;
    hide FetchStep, MutateStep, Stores, Rewrites, Obtained, Live, FreshKey, StaleKey, EndsInStale, CB.Run, Retry.Retried;
    assert h.clock <= clock && AskedBy(told, clock);
    forall m | 0 <= m < |trace + told| && (trace + told)[m].Query? ensures (trace + told)[m].now <= clock {
      if m >= |trace| { assert (trace + told)[m] == told[m - |trace|]; }
    }
  }

  lemma ProperPrefix<V>(config: FederationClient.Config<V>, ops: seq<Op<V>>, n: nat)
    requires ProperRun(config, ops) && n <= |ops|
    ensures ProperRun(config, ops[..n])
  {
    forall m | 0 <= m < n ensures Proper(FederationClient.Run(config, ops[..n][..m]).clock, ops[..n][m]) {
      assert ops[..n][..m] == ops[..m];
      assert Proper(FederationClient.Run(config, ops[..m]).clock, ops[m]);
    }
  }

  lemma {:induction false} LastFailureKept(trace: seq<Event>, k: nat)
    requires k <= |trace| && forall m | k <= m < |trace| :: trace[m].Query? || trace[m].Success?
    ensures LastFailure(trace) == LastFailure(trace[..k])
    decreases |trace|
  {
    if k < |trace| {
      LastFailureKept(trace[..|trace| - 1], k);
      assert trace[..|trace| - 1][..k] == trace[..k];
    } else {
      assert trace[..k] == trace;
    }
  }

  /** As many failures in a row as the threshold, the last of them recent: the breaker is open. */
  lemma {:induction false} RecentFailuresHoldOpen(trace: seq<Event>, now: nat, config: CB.Config)
    requires AskedBy(trace, now) && ConsecutiveFailures(trace) >= config.failureThreshold >= 1
    requires now - LastFailure(trace) < config.resetTimeoutMs
    ensures CB.Run(trace, config).state == Open && Observe(CB.Run(trace, config), now, config) == CB.Run(trace, config)
  {
    CountersExplainState(trace, config);
    if CB.Run(trace, config).state == HalfOpen {
      HalfOpenHistory(trace, config);
      hide CB.Run, ConsecutiveFailures;
      var k: nat :| HalfOpenSince(trace, k, config);
      assert trace[k].now <= now;
      LastFailureKept(trace, k);
    }
  }

  /** After that no read reaches the provider until the timeout has passed: the client is left as it is, whatever the
      provider would answer. */
  lemma {:induction false} FailuresShield<V>(config: FederationClient.Config<V>, ops: seq<Op<V>>, id: string, start: nat, finish: nat, tries: Tries<V>)
    requires ProperRun(config, ops) && FederationClient.Run(config, ops).clock <= start
    requires ConsecutiveFailures(Trace(config, ops)) >= config.breaker.failureThreshold >= 1
    requires start - LastFailure(Trace(config, ops)) < config.breaker.resetTimeoutMs
    ensures var c := FederationClient.Run(config, ops).client;
            && !IsPermitted(config, c, start)
            && FetchStep(config, c, id, start, finish, tries).0 == c
            && forall other: Tries<V> :: FetchStep(config, c, id, start, finish, other) == FetchStep(config, c, id, start, finish, tries)
  {
    var trace := Trace(config, ops);
    AskedInTime(config, ops);
    BreakerSeesTheTrace(config, ops);
    hide FederationClient.Run, Trace, ProperRun;
    RecentFailuresHoldOpen(trace, start, config.breaker);
    CountersExplainState(trace, config.breaker);
    OpenBreakerShields(config, FederationClient.Run(config, ops).client, id, start, finish, tries);
  }

  /** The read misses, is let through, and gets nothing it can use. */
  ghost predicate FailedRead<V>(config: FederationClient.Config<V>, c: Client<V>, op: Op<V>) {
    && op.FetchOp?
    && Live(c.store, FreshKey(config, op.id), op.start).None?
    && IsPermitted(config, c, op.start)
    && Obtained(config, op.tries).None?
  }

  ghost predicate AllFail<V>(config: FederationClient.Config<V>, ops: seq<Op<V>>, failing: seq<Op<V>>) {
    forall i | 0 <= i < |failing| :: FailedRead(config, FederationClient.Run(config, ops + failing[..i]).client, failing[i])
  }

  lemma FailuresAppend(trace: seq<Event>, start: nat, finish: nat)
    ensures var longer := trace + [Query(start), Failure(finish)];
            ConsecutiveFailures(longer) == ConsecutiveFailures(trace) + 1 && LastFailure(longer) == finish
  {
    var longer := trace + [Query(start), Failure(finish)];
    assert longer[..|longer| - 1] == trace + [Query(start)];
    assert (trace + [Query(start)])[..|trace|] == trace;
  }

  lemma {:induction false} FailedReadsCount<V>(config: FederationClient.Config<V>, ops: seq<Op<V>>, failing: seq<Op<V>>)
    requires AllFail(config, ops, failing)
    ensures ConsecutiveFailures(Trace(config, ops + failing)) >= |failing|
    ensures failing != [] ==> failing[|failing| - 1].FetchOp? && LastFailure(Trace(config, ops + failing)) == failing[|failing| - 1].finish
    decreases |failing|
  {
    if failing != [] {
      var n := |failing| - 1;
      var (front, last) := (failing[..n], failing[n]);
      var earlier := ops + front;
      hide *;
      LastRead(ops, failing);
      AllFailFront(config, ops, failing);
      FailedReadsCount(config, ops, front);
      FailedReadTold(config, earlier, last);
      FailuresAppend(Trace(config, earlier), last.start, last.finish);
    }
  }

  lemma LastRead<V>(ops: seq<Op<V>>, failing: seq<Op<V>>)
    requires failing != []
    ensures var n := |failing| - 1; ops + failing == (ops + failing[..n]) + [failing[n]] && |failing[..n]| == n
  {
  }

  lemma AllFailFront<V>(config: FederationClient.Config<V>, ops: seq<Op<V>>, failing: seq<Op<V>>)
    requires AllFail(config, ops, failing) && failing != []
    ensures var n := |failing| - 1;
            && AllFail(config, ops, failing[..n])
            && failing[n].FetchOp? && FailedRead(config, FederationClient.Run(config, ops + failing[..n]).client, failing[n])
  {
    var n := |failing| - 1;
    forall i | 0 <= i < n ensures FailedRead(config, FederationClient.Run(config, ops + failing[..n][..i]).client, failing[..n][i]) {
      assert failing[..n][..i] == failing[..i];
      assert FailedRead(config, FederationClient.Run(config, ops + failing[..i]).client, failing[i]);
    }
    assert FailedRead(config, FederationClient.Run(config, ops + failing[..n]).client, failing[n]);
  }

  lemma FailedReadTold<V>(config: FederationClient.Config<V>, ops: seq<Op<V>>, op: Op<V>)
    requires FailedRead(config, FederationClient.Run(config, ops).client, op)
    ensures Trace(config, ops + [op]) == Trace(config, ops) + [Query(op.start), Failure(op.finish)]
  {
    BreakerSeesTheTrace(config, ops);
    TraceStep(Trace(config, ops), Query(op.start), config.breaker);
    assert (ops + [op])[..|ops|] == ops;
    hide FederationClient.Run, CB.Run, Live, FreshKey, Obtained, Observe;
  }

  /** Threshold reads fail one after the other: then no call reaches the provider within the timeout. */
  lemma {:induction false} ThresholdReadsShield<V>(config: FederationClient.Config<V>, ops: seq<Op<V>>, failing: seq<Op<V>>, id: string, start: nat,
                                                  finish: nat, tries: Tries<V>)
    requires ProperRun(config, ops + failing) && AllFail(config, ops, failing)
    requires |failing| >= config.breaker.failureThreshold >= 1
    requires FederationClient.Run(config, ops + failing).clock <= start
    requires failing[|failing| - 1].FetchOp? ==> start < failing[|failing| - 1].finish + config.breaker.resetTimeoutMs
    ensures var c := FederationClient.Run(config, ops + failing).client;
            && !IsPermitted(config, c, start)
            && FetchStep(config, c, id, start, finish, tries).0 == c
            && forall other: Tries<V> :: FetchStep(config, c, id, start, finish, other) == FetchStep(config, c, id, start, finish, tries)
  {
    hide FederationClient.Run, Trace, ProperRun, AllFail, FetchStep, IsPermitted, ConsecutiveFailures, LastFailure;
    FailedReadsCount(config, ops, failing);
    FailuresShield(config, ops + failing, id, start, finish, tries);
  }

  // ---- What a read returns ---------------------------------------------------------------------

  /** The value last stored for the id and when, unless invalidated since. */
  function LastOf<V>(log: seq<CacheEvent<V>>, id: string): Option<(V, nat)> {
    if log == [] then None
    else
      match log[|log| - 1]
      case Stored(other, data, at) => if other == id then Some((data, at)) else LastOf(log[..|log| - 1], id)
      case Invalidated(other) => if other == id then None else LastOf(log[..|log| - 1], id)
      case AllInvalidated => None
  }

  /** Of that value, what is no older than `seconds`. */
  function Younger<V>(last: Option<(V, nat)>, seconds: nat, now: nat): Option<(V, nat)> {
    if last.Some? && now < last.value.1 + seconds * 1000 then last else None
  }

  /** Both tiers hold what was last stored for the id, and nothing once it was invalidated. */
  ghost predicate ShowsLog<V>(config: FederationClient.Config<V>, h: History<V>, id: string) {
    var (freshKey, staleKey) := (FreshKey(config, id), StaleKey(config, id));
    match LastOf(h.log, id)
    case None => freshKey !in h.client.store && staleKey !in h.client.store
    case Some((data, at)) =>
      && freshKey in h.client.store && staleKey in h.client.store
      && h.client.store[freshKey] == Slot(Payload(data, at), at + config.ttlSeconds * 1000)
      && h.client.store[staleKey] == Slot(Payload(data, at), at + StaleLife(config.ttlSeconds) * 1000)
  }

  /** Five times the lifetime, and a quarter of an hour at least, in seconds. */
  function StaleLife(ttlSeconds: nat): nat {
    if 5 * ttlSeconds < 15 * 60 then 15 * 60 else 5 * ttlSeconds
  }

  lemma LastOfSnoc<V>(log: seq<CacheEvent<V>>, e: CacheEvent<V>, id: string)
    ensures LastOf(log + [e], id) ==
            match e
            case Stored(other, data, at) => if other == id then Some((data, at)) else LastOf(log, id)
            case Invalidated(other) => if other == id then None else LastOf(log, id)
            case AllInvalidated => None
  {
    assert (log + [e])[..|log|] == log;
  }

  lemma StoreShowsLog<V>(config: FederationClient.Config<V>, h: History<V>, id: string, data: V, at: nat, other: string, after: History<V>)
    requires ShowsLog(config, h, other) && !EndsInStale(id) && !EndsInStale(other)
    requires after.log == h.log + [Stored(id, data, at)]
    requires after.client.store == SetBoth(h.client.store, FreshKey(config, id), StaleKey(config, id), data, config.ttlSeconds, at)
    ensures ShowsLog(config, after, other)
  {
    LastOfSnoc(h.log, Stored(id, data, at), other);
    KeysApart(config.tenant, config.keyPrefix, id, other);
    KeysApart(config.tenant, config.keyPrefix, id, id);
    hide BuildKey, BuildStaleKey, EndsInStale, LastOf;
  }

  lemma InvalidateShowsLog<V>(config: FederationClient.Config<V>, h: History<V>, id: string, other: string, after: History<V>)
    requires ShowsLog(config, h, other) && !EndsInStale(id) && !EndsInStale(other)
    requires after.log == h.log + [Invalidated(id)]
    requires after.client.store == h.client.store - {FreshKey(config, id), StaleKey(config, id)}
    ensures ShowsLog(config, after, other)
  {
    LastOfSnoc(h.log, Invalidated(id), other);
    KeysApart(config.tenant, config.keyPrefix, id, other);
    hide BuildKey, BuildStaleKey, EndsInStale, LastOf;
  }

  lemma InvalidateAllShowsLog<V>(config: FederationClient.Config<V>, h: History<V>, other: string)
    ensures ShowsLog(config, FederationClient.Apply(config, h, InvalidateAllOp), other)
  {
    LastOfSnoc(h.log, AllInvalidated, other);
    var head := FreshKey(config, "");
    assert FreshKey(config, other) == head + other;
    assert StaleKey(config, other) == head + (other + STALE_SUFFIX);
    hide LastOf;
  }

  lemma SameShowsLog<V>(config: FederationClient.Config<V>, h: History<V>, other: string, after: History<V>)
    requires ShowsLog(config, h, other) && after.log == h.log && after.client.store == h.client.store
    ensures ShowsLog(config, after, other)
  {
    hide FreshKey, StaleKey, LastOf;
  }

  lemma ApplyShowsLog<V>(config: FederationClient.Config<V>, h: History<V>, op: Op<V>, other: string)
    requires ShowsLog(config, h, other) && Proper(h.clock, op) && !EndsInStale(other)
    ensures ShowsLog(config, FederationClient.Apply(config, h, op), other)
  {
    var after := FederationClient.Apply(config, h, op);
    match op
    case FetchOp(id, start, finish, tries) =>
      FetchShape(config, h, op);
      hide FederationClient.Apply, ShowsLog, Stores, FreshKey, StaleKey, SetBoth, Obtained, EndsInStale;
      if Stores(config, h.client, id, start, tries) {
        StoreShowsLog(config, h, id, Obtained(config, tries).value, finish, other, after);
      } else {
        SameShowsLog(config, h, other, after);
      }
    case MutateOp(supported, id, start, finish, writes) =>
      MutateShape(config, h, op);
      hide FederationClient.Apply, ShowsLog, Rewrites, FreshKey, StaleKey, EndsInStale;
      if Rewrites(config, h.client, supported, start, writes) {
        InvalidateShowsLog(config, h, id, other, after);
      } else {
        SameShowsLog(config, h, other, after);
      }
    case InvalidateOp(id) =>
      hide ShowsLog, FreshKey, StaleKey, EndsInStale;
      InvalidateShowsLog(config, h, id, other, after);
    case InvalidateAllOp =>
      InvalidateAllShowsLog(config, h, other);
    case ResetOp =>
      hide ShowsLog;
      SameShowsLog(config, h, other, after);
  }

  lemma {:induction false} RunShowsLog<V>(config: FederationClient.Config<V>, ops: seq<Op<V>>, id: string)
    requires ProperRun(config, ops) && !EndsInStale(id)
    ensures ShowsLog(config, FederationClient.Run(config, ops), id)
  {
    if ops != [] {
      var n := |ops| - 1;
      ProperPrefix(config, ops, n);
      RunShowsLog(config, ops[..n], id);
      assert Proper(FederationClient.Run(config, ops[..n]).clock, ops[n]);
      hide ShowsLog, ProperRun, FederationClient.Apply, EndsInStale;
      ApplyShowsLog(config, FederationClient.Run(config, ops[..n]), ops[n], id);
    }
  }

  /** Every write of every run: unsupported ones are answered without a call, an open breaker turns them away, and else
      they succeed exactly when some try does. */
  lemma {:induction false} MutateOutcome<V>(config: FederationClient.Config<V>, ops: seq<Op<V>>, supported: bool, id: string, start: nat, finish: nat,
                                           writes: nat -> Retry.Attempt<()>)
    ensures var (h, trace) := (FederationClient.Run(config, ops), Trace(config, ops));
            MutateStep(config, h.client, supported, id, start, finish, writes).1 ==
            if !supported then MutateResult(OkStatus, true)
            else if CB.Run(trace + [Query(start)], config.breaker).state == Open then MutateResult(Unavailable, true)
            else if Retry.Retried(writes, config.retry).Returned? then MutateResult(OkStatus, false)
            else MutateResult(Unavailable, true)
  {
    BreakerSeesTheTrace(config, ops);
    TraceStep(Trace(config, ops), Query(start), config.breaker);
    hide FederationClient.Run, Trace, CB.Run, Observe, Succeed, Fail, Retry.Retried, FreshKey, StaleKey;
  }

  function DataOf<V>(last: Option<(V, nat)>): Option<V> {
    if last.Some? then Some(last.value.0) else None
  }

  /** Every read of every run: the last value stored while it is fresh; with the breaker open the last value while it is
      kept, and no call; otherwise what the provider gives, or the last value again when it gives nothing. */
  lemma {:induction false} FetchOutcome<V>(config: FederationClient.Config<V>, ops: seq<Op<V>>, id: string, start: nat, finish: nat, tries: Tries<V>)
    requires ProperRun(config, ops) && !EndsInStale(id)
    ensures var (h, trace) := (FederationClient.Run(config, ops), Trace(config, ops));
            var (last, r) := (LastOf(h.log, id), FetchStep(config, h.client, id, start, finish, tries).1);
            var (young, keptAtStart, keptAtEnd) :=
              (Younger(last, config.ttlSeconds, start), Younger(last, StaleLife(config.ttlSeconds), start), Younger(last, StaleLife(config.ttlSeconds), finish));
            if young.Some? then r == FetchResult(Some(young.value.0), OkStatus, Some(young.value.1), false)
            else if CB.Run(trace + [Query(start)], config.breaker).state == Open then r == FetchResult(DataOf(keptAtStart), Degraded, None, true)
            else if Obtained(config, tries).Some? then r == FetchResult(Obtained(config, tries), OkStatus, Some(finish), false)
            else r == FetchResult(DataOf(keptAtEnd), if keptAtEnd.Some? && config.truthy(keptAtEnd.value.0) then Degraded else Unavailable, None, true)
  {
    RunShowsLog(config, ops, id);
    BreakerSeesTheTrace(config, ops);
    TraceStep(Trace(config, ops), Query(start), config.breaker);
    hide FederationClient.Run, Trace, CB.Run, LastOf, FreshKey, StaleKey, Obtained, SetBoth, Observe, Succeed, Fail, EndsInStale, ProperRun;
  }
}
