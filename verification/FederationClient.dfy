/** Reads and writes through one provider: cache, breaker and retry together. */
module FederationClient {
  import opened Options
  import opened FederationCache
  import CircuitBreaker
  import Retry

  /** `truthy` is JavaScript's reading of a value as a condition. */
  datatype Config<!V> = Config(
    tenant: string,
    keyPrefix: string,
    ttlSeconds: nat,
    retry: Retry.Config,
    breaker: CircuitBreaker.Config,
    truthy: V -> bool)

  datatype Status = OkStatus | Degraded | Unavailable

  datatype FetchResult<V> = FetchResult(data: Option<V>, status: Status, cachedAt: Option<nat>, failed: bool)

  datatype Client<V> = Client(store: Store<V>, breaker: CircuitBreaker.Breaker)

  /** What the provider gives on each try: a mapped value, or nothing when mapping threw. */
  type Tries<V> = nat -> Retry.Attempt<Option<V>>

  function FreshKey<V>(config: Config<V>, id: string): string {
    BuildKey(config.tenant, config.keyPrefix, id)
  }

  function StaleKey<V>(config: Config<V>, id: string): string {
    BuildStaleKey(config.tenant, config.keyPrefix, id)
  }

  function StaleData<V>(config: Config<V>, store: Store<V>, id: string, now: nat): Option<V> {
    match Live(store, StaleKey(config, id), now)
    case Some(p) => Some(p.data)
    case None => None
  }

  /** The value the provider returned and the mapping accepted, if any. */
  function Obtained<V>(config: Config<V>, tries: Tries<V>): Option<V> {
    match Retry.Retried(tries, config.retry)
    case Returned(mapped) => mapped
    case _ => None
  }

  predicate IsPermitted<V>(config: Config<V>, c: Client<V>, now: nat) {
    CircuitBreaker.Observe(c.breaker, now, config.breaker).state != CircuitBreaker.Open
  }

  /** A read that starts at `start` and, when it reaches the provider, ends at `finish`. */
  function FetchStep<V>(config: Config<V>, c: Client<V>, id: string, start: nat, finish: nat, tries: Tries<V>)
    : (Client<V>, FetchResult<V>)
  {
    match Live(c.store, FreshKey(config, id), start)
    case Some(p) => (c, FetchResult(Some(p.data), OkStatus, Some(p.cachedAt), false))
    case None =>
      var observed := CircuitBreaker.Observe(c.breaker, start, config.breaker);
      if observed.state == CircuitBreaker.Open then
        (Client(c.store, observed), FetchResult(StaleData(config, c.store, id, start), Degraded, None, true))
      else
        match Obtained(config, tries)
        case Some(v) =>
          (Client(SetBoth(c.store, FreshKey(config, id), StaleKey(config, id), v, config.ttlSeconds, finish),
                  CircuitBreaker.Succeed(observed, config.breaker)),
           FetchResult(Some(v), OkStatus, Some(finish), false))
        case None =>
          var stale := StaleData(config, c.store, id, finish);
          (Client(c.store, CircuitBreaker.Fail(observed, finish, config.breaker)),
           FetchResult(stale, if stale.Some? && config.truthy(stale.value) then Degraded else Unavailable, None, true))
  }

  datatype MutateResult = MutateResult(status: Status, failed: bool)

  predicate Accepted<V>(config: Config<V>, tries: nat -> Retry.Attempt<()>) {
    Retry.Retried(tries, config.retry).Returned?
  }

  function MutateStep<V>(config: Config<V>, c: Client<V>, supported: bool, id: string, start: nat, finish: nat,
                     tries: nat -> Retry.Attempt<()>): (Client<V>, MutateResult)
  {
    if !supported then (c, MutateResult(OkStatus, true))
    else
      var observed := CircuitBreaker.Observe(c.breaker, start, config.breaker);
      if observed.state == CircuitBreaker.Open then (Client(c.store, observed), MutateResult(Unavailable, true))
      else if Accepted(config, tries) then
        (Client(c.store - {FreshKey(config, id), StaleKey(config, id)}, CircuitBreaker.Succeed(observed, config.breaker)),
         MutateResult(OkStatus, false))
      else (Client(c.store, CircuitBreaker.Fail(observed, finish, config.breaker)), MutateResult(Unavailable, true))
  }

  // ---- The service -------------------------------------------------------------------

  class Service<V(0)> {
    const config: Config<V>
    const cache: CacheManager<V>
    const breaker: CircuitBreaker.Service

    constructor (config: Config<V>)
      ensures this.config == config && Valid() && fresh(cache) && fresh(breaker)
      ensures State() == Client(map[], CircuitBreaker.INITIAL)
    {
      this.config := config;
      cache := new CacheManager<V>(config.tenant);
      breaker := new CircuitBreaker.Service(config.breaker);
    }

    ghost predicate Valid() {
      cache.tenant == config.tenant && breaker.config == config.breaker
    }

    function State(): Client<V>
      reads cache, breaker
    {
      Client(cache.redis, breaker.Value())
    }

    method Fetch(id: string, start: nat, finish: nat, tries: Tries<V>, random: nat -> real) returns (r: FetchResult<V>, calls: nat)
      requires Valid()
      modifies cache, breaker
      ensures Valid()
      ensures (State(), r) == FetchStep(config, old(State()), id, start, finish, tries)
      ensures calls == if Live(old(cache.redis), FreshKey(config, id), start).None? && IsPermitted(config, old(State()), start)
                       then Retry.Calls(tries, config.retry) else 0
    {
      hide BuildKey, BuildStaleKey, Retry.Retried, Retry.Calls;
      calls := 0;
      var cached := cache.Get(config.keyPrefix, id, start);
      if cached.Some? {
        return FetchResult(Some(cached.value.data), OkStatus, Some(cached.value.cachedAt), false), 0;
      }
      var permitted := breaker.IsCallPermitted(start);
      if !permitted {
        var stale := cache.GetStale(config.keyPrefix, id, start);
        return FetchResult(stale, Degraded, None, true), 0;
      }
      var outcome: Retry.Outcome<Option<V>>;
      var waited: real;
      outcome, calls, waited := Retry.WithRetry(tries, config.retry, random);
      if outcome.Returned? && outcome.value.Some? {
        cache.Set(config.keyPrefix, id, outcome.value.value, config.ttlSeconds, finish);
        breaker.RecordSuccess();
        r := FetchResult(outcome.value, OkStatus, Some(finish), false);
      } else {
        breaker.RecordFailure(finish);
        var stale := cache.GetStale(config.keyPrefix, id, finish);
        r := FetchResult(stale, if stale.Some? && config.truthy(stale.value) then Degraded else Unavailable, None, true);
      }
    }

    method Mutate(supported: bool, id: string, start: nat, finish: nat, tries: nat -> Retry.Attempt<()>, random: nat -> real)
      returns (r: MutateResult)
      requires Valid()
      modifies cache, breaker
      ensures Valid()
      ensures (State(), r) == MutateStep(config, old(State()), supported, id, start, finish, tries)
    {
      hide BuildKey, BuildStaleKey, Retry.Retried;
      if !supported {
        return MutateResult(OkStatus, true);
      }
      var permitted := breaker.IsCallPermitted(start);
      if !permitted {
        return MutateResult(Unavailable, true);
      }
      var outcome, calls, waited := Retry.WithRetry(tries, config.retry, random);
      if outcome.Returned? {
        breaker.RecordSuccess();
        cache.Invalidate(config.keyPrefix, id);
        r := MutateResult(OkStatus, false);
      } else {
        breaker.RecordFailure(finish);
        r := MutateResult(Unavailable, true);
      }
    }
  }

  // ---- Histories -----------------------------------------------------------------------

  /** What happened to the cache, oldest first. */
  datatype CacheEvent<V> = Stored(id: string, data: V, at: nat) | Invalidated(id: string) | AllInvalidated

  datatype Op<!V> =
    | FetchOp(id: string, start: nat, finish: nat, tries: Tries<V>)
    | MutateOp(supported: bool, id: string, start: nat, finish: nat, writes: nat -> Retry.Attempt<()>)
    | InvalidateOp(id: string)
    | InvalidateAllOp
    | ResetOp

  datatype History<V> = History(client: Client<V>, log: seq<CacheEvent<V>>, clock: nat)

  function Start<V>(): History<V> {
    History(Client(map[], CircuitBreaker.INITIAL), [], 0)
  }

  /** The fetch that reaches the provider and stores what it got. */
  predicate Stores<V>(config: Config<V>, c: Client<V>, id: string, start: nat, tries: Tries<V>) {
    Live(c.store, FreshKey(config, id), start).None? && IsPermitted(config, c, start) && Obtained(config, tries).Some?
  }

  predicate Rewrites<V>(config: Config<V>, c: Client<V>, supported: bool, start: nat, writes: nat -> Retry.Attempt<()>) {
    supported && IsPermitted(config, c, start) && Accepted(config, writes)
  }

  function Apply<V>(config: Config<V>, h: History<V>, op: Op<V>): History<V> {
    match op
    case FetchOp(id, start, finish, tries) =>
      var c := FetchStep(config, h.client, id, start, finish, tries).0;
      if Stores(config, h.client, id, start, tries)
      then History(c, h.log + [Stored(id, Obtained(config, tries).value, finish)], finish)
      else History(c, h.log, finish)
    case MutateOp(supported, id, start, finish, writes) =>
      var c := MutateStep(config, h.client, supported, id, start, finish, writes).0;
      if Rewrites(config, h.client, supported, start, writes)
      then History(c, h.log + [Invalidated(id)], finish)
      else History(c, h.log, finish)
    case InvalidateOp(id) =>
      History(h.client.(store := h.client.store - {FreshKey(config, id), StaleKey(config, id)}), h.log + [Invalidated(id)], h.clock)
    case InvalidateAllOp =>
      History(h.client.(store := map key | key in h.client.store && !(FreshKey(config, "") <= key) :: h.client.store[key]),
              h.log + [AllInvalidated], h.clock)
    case ResetOp => h.(client := h.client.(breaker := CircuitBreaker.INITIAL))
  }

  function Run<V>(config: Config<V>, ops: seq<Op<V>>): History<V> {
    if ops == [] then Start() else Apply(config, Run(config, ops[..|ops| - 1]), ops[|ops| - 1])
  }

  /** The clock never goes back, and no id ends in the stale suffix. */
  predicate Proper<V>(clock: nat, op: Op<V>) {
    match op
    case FetchOp(id, start, finish, _) => clock <= start <= finish && !EndsInStale(id)
    case MutateOp(_, id, start, finish, _) => clock <= start <= finish && !EndsInStale(id)
    case InvalidateOp(id) => !EndsInStale(id)
    case _ => true
  }

  ghost predicate ProperRun<V>(config: Config<V>, ops: seq<Op<V>>) {
    forall n | 0 <= n < |ops| :: Proper(Run(config, ops[..n]).clock, ops[n])
  }

  predicate Concerns<V>(e: CacheEvent<V>, id: string) {
    match e
    case Stored(other, _, _) => other == id
    case Invalidated(other) => other == id
    case AllInvalidated => true
  }

  /** The event at `k` stored `data` for the id at `at`, and nothing concerned the id since. */
  ghost predicate LastStored<V>(log: seq<CacheEvent<V>>, k: nat, id: string, data: V, at: nat) {
    && k < |log|
    && log[k] == Stored(id, data, at)
    && forall m | k < m < |log| :: !Concerns(log[m], id)
  }

  ghost predicate Explained<V>(log: seq<CacheEvent<V>>, id: string, slot: Slot<V>, lifetime: nat, clock: nat) {
    && slot.expiresAt == slot.payload.cachedAt + lifetime * 1000
    && slot.payload.cachedAt <= clock
    && exists k: nat :: LastStored(log, k, id, slot.payload.data, slot.payload.cachedAt)
  }

  /** Every slot of a proper id goes back to the last thing that happened to that id. */
  ghost predicate ExplainedFor<V>(config: Config<V>, h: History<V>, id: string) {
    && (FreshKey(config, id) in h.client.store ==>
          Explained(h.log, id, h.client.store[FreshKey(config, id)], config.ttlSeconds, h.clock))
    && (StaleKey(config, id) in h.client.store ==>
          Explained(h.log, id, h.client.store[StaleKey(config, id)], StaleTtlSeconds(config.ttlSeconds), h.clock))
  }

  ghost predicate Sound<V>(config: Config<V>, h: History<V>) {
    forall id | !EndsInStale(id) :: ExplainedFor(config, h, id)
  }

  lemma StillLast<V>(log: seq<CacheEvent<V>>, e: CacheEvent<V>, id: string, slot: Slot<V>, lifetime: nat, clock: nat, later: nat)
    requires Explained(log, id, slot, lifetime, clock) && !Concerns(e, id) && clock <= later
    ensures Explained(log + [e], id, slot, lifetime, later)
  {
    var k: nat :| LastStored(log, k, id, slot.payload.data, slot.payload.cachedAt);
    assert LastStored(log + [e], k, id, slot.payload.data, slot.payload.cachedAt);
  }

  /** An event about one id leaves what is known of another. */
  lemma OtherIdKept<V>(config: Config<V>, before: History<V>, after: History<V>, e: CacheEvent<V>, id: string)
    requires ExplainedFor(config, before, id) && !Concerns(e, id)
    requires after.log == before.log + [e] && before.clock <= after.clock
    requires FreshKey(config, id) in after.client.store ==>
               FreshKey(config, id) in before.client.store && after.client.store[FreshKey(config, id)] == before.client.store[FreshKey(config, id)]
    requires StaleKey(config, id) in after.client.store ==>
               StaleKey(config, id) in before.client.store && after.client.store[StaleKey(config, id)] == before.client.store[StaleKey(config, id)]
    ensures ExplainedFor(config, after, id)
  {
    hide FreshKey, StaleKey, Explained, Concerns;
    if FreshKey(config, id) in after.client.store {
      StillLast(before.log, e, id, before.client.store[FreshKey(config, id)], config.ttlSeconds, before.clock, after.clock);
    }
    if StaleKey(config, id) in after.client.store {
      StillLast(before.log, e, id, before.client.store[StaleKey(config, id)], StaleTtlSeconds(config.ttlSeconds), before.clock, after.clock);
    }
  }

  lemma StoreExplained<V>(config: Config<V>, h: History<V>, id: string, data: V, at: nat, other: string)
    requires ExplainedFor(config, h, other) && h.clock <= at && !EndsInStale(id) && !EndsInStale(other)
    ensures var store := SetBoth(h.client.store, FreshKey(config, id), StaleKey(config, id), data, config.ttlSeconds, at);
            forall breaker :: ExplainedFor(config, History(Client(store, breaker), h.log + [Stored(id, data, at)], at), other)
  {
    var store := SetBoth(h.client.store, FreshKey(config, id), StaleKey(config, id), data, config.ttlSeconds, at);
    KeysApart(config.tenant, config.keyPrefix, id, other);
    hide BuildKey, BuildStaleKey, EndsInStale;
    forall breaker ensures ExplainedFor(config, History(Client(store, breaker), h.log + [Stored(id, data, at)], at), other) {
      var after := History(Client(store, breaker), h.log + [Stored(id, data, at)], at);
      if id == other {
        assert LastStored(after.log, |h.log|, id, data, at);
      } else {
        OtherIdKept(config, h, after, Stored(id, data, at), other);
      }
    }
  }

  lemma InvalidateExplained<V>(config: Config<V>, h: History<V>, id: string, at: nat, other: string)
    requires ExplainedFor(config, h, other) && h.clock <= at && !EndsInStale(id) && !EndsInStale(other)
    ensures var store := h.client.store - {FreshKey(config, id), StaleKey(config, id)};
            forall breaker :: ExplainedFor(config, History(Client(store, breaker), h.log + [Invalidated(id)], at), other)
  {
    var store := h.client.store - {FreshKey(config, id), StaleKey(config, id)};
    KeysApart(config.tenant, config.keyPrefix, id, other);
    hide BuildKey, BuildStaleKey, EndsInStale;
    forall breaker ensures ExplainedFor(config, History(Client(store, breaker), h.log + [Invalidated(id)], at), other) {
      var after := History(Client(store, breaker), h.log + [Invalidated(id)], at);
      if id != other {
        OtherIdKept(config, h, after, Invalidated(id), other);
      }
    }
  }

  lemma UntouchedExplained<V>(config: Config<V>, h: History<V>, at: nat, other: string)
    requires ExplainedFor(config, h, other) && h.clock <= at
    ensures forall breaker :: ExplainedFor(config, History(Client(h.client.store, breaker), h.log, at), other)
  {
    hide FreshKey, StaleKey;
  }

  lemma InvalidateAllExplained<V>(config: Config<V>, h: History<V>, other: string)
    ensures ExplainedFor(config, Apply(config, h, InvalidateAllOp), other)
  {
    var head := FreshKey(config, "");
    assert FreshKey(config, other) == head + other;
    assert StaleKey(config, other) == head + (other + STALE_SUFFIX);
  }

  /** How a fetch changes the store and what it logs. */
  lemma FetchShape<V>(config: Config<V>, h: History<V>, op: Op<V>)
    requires op.FetchOp?
    ensures var after := Apply(config, h, op);
            if Stores(config, h.client, op.id, op.start, op.tries) then
              && after.client.store == SetBoth(h.client.store, FreshKey(config, op.id), StaleKey(config, op.id),
                                               Obtained(config, op.tries).value, config.ttlSeconds, op.finish)
              && after.log == h.log + [Stored(op.id, Obtained(config, op.tries).value, op.finish)] && after.clock == op.finish
            else after.client.store == h.client.store && after.log == h.log && after.clock == op.finish
  {
    hide FreshKey, StaleKey, Obtained, SetBoth, StaleData, CircuitBreaker.Succeed, CircuitBreaker.Fail;
  }

  lemma MutateShape<V>(config: Config<V>, h: History<V>, op: Op<V>)
    requires op.MutateOp?
    ensures var after := Apply(config, h, op);
            if Rewrites(config, h.client, op.supported, op.start, op.writes) then
              && after.client.store == h.client.store - {FreshKey(config, op.id), StaleKey(config, op.id)}
              && after.log == h.log + [Invalidated(op.id)] && after.clock == op.finish
            else after.client.store == h.client.store && after.log == h.log && after.clock == op.finish
  {
    hide FreshKey, StaleKey, Accepted, CircuitBreaker.Succeed, CircuitBreaker.Fail;
  }

  lemma ApplyExplained<V>(config: Config<V>, h: History<V>, op: Op<V>, other: string)
    requires ExplainedFor(config, h, other) && Proper(h.clock, op) && !EndsInStale(other)
    ensures ExplainedFor(config, Apply(config, h, op), other)
  {
    var after := Apply(config, h, op);
    match op
    case FetchOp(id, start, finish, tries) =>
      FetchShape(config, h, op);
      hide Apply, ExplainedFor, Stores, FreshKey, StaleKey, SetBoth;
      assert after == History(Client(after.client.store, after.client.breaker), after.log, after.clock);
      if Stores(config, h.client, id, start, tries) {
        StoreExplained(config, h, id, Obtained(config, tries).value, finish, other);
      } else {
        UntouchedExplained(config, h, finish, other);
      }
    case MutateOp(supported, id, start, finish, writes) =>
      MutateShape(config, h, op);
      hide Apply, ExplainedFor, Rewrites, FreshKey, StaleKey;
      assert after == History(Client(after.client.store, after.client.breaker), after.log, after.clock);
      if Rewrites(config, h.client, supported, start, writes) {
        InvalidateExplained(config, h, id, finish, other);
      } else {
        UntouchedExplained(config, h, finish, other);
      }
    case InvalidateOp(id) =>
      InvalidateExplained(config, h, id, h.clock, other);
    case InvalidateAllOp =>
      InvalidateAllExplained(config, h, other);
    case ResetOp =>
      UntouchedExplained(config, h, h.clock, other);
  }

  lemma {:induction false} RunSound<V>(config: Config<V>, ops: seq<Op<V>>)
    requires ProperRun(config, ops)
    ensures Sound(config, Run(config, ops))
  {
    if ops != [] {
      var n := |ops| - 1;
      forall m | 0 <= m < n ensures Proper(Run(config, ops[..n][..m]).clock, ops[..n][m]) {
        assert ops[..n][..m] == ops[..m];
        assert Proper(Run(config, ops[..m]).clock, ops[m]);
      }
      RunSound(config, ops[..n]);
      assert Proper(Run(config, ops[..n]).clock, ops[n]);
      forall id | !EndsInStale(id) ensures ExplainedFor(config, Run(config, ops), id) {
        ApplyExplained(config, Run(config, ops[..n]), ops[n], id);
      }
    }
  }

  // ---- Main results ----------------------------------------------------------------------

  /** Where the data of a fetch can come from. */
  ghost predicate CameFrom<V>(log: seq<CacheEvent<V>>, id: string, data: V, storedAt: nat, now: nat, lifetime: nat) {
    && now < storedAt + lifetime * 1000
    && exists k: nat :: LastStored(log, k, id, data, storedAt)
  }

  /** What a fetch may return after this history: a value just obtained, or one the log accounts for. */
  ghost predicate Justified<V>(config: Config<V>, h: History<V>, id: string, start: nat, finish: nat, tries: Tries<V>,
                               r: FetchResult<V>)
  {
    match r.status
    case OkStatus =>
      && r.data.Some? && r.cachedAt.Some? && !r.failed
      && (|| (Stores(config, h.client, id, start, tries) && r.cachedAt.value == finish && Obtained(config, tries) == r.data)
          || CameFrom(h.log, id, r.data.value, r.cachedAt.value, start, config.ttlSeconds))
    case _ =>
      && r.cachedAt.None? && r.failed
      && (r.data.Some? ==> exists storedAt: nat, now: nat | start <= now <= finish ::
            CameFrom(h.log, id, r.data.value, storedAt, now, StaleTtlSeconds(config.ttlSeconds)))
  }

  lemma StaleJustified<V>(config: Config<V>, h: History<V>, id: string, now: nat)
    requires ExplainedFor(config, h, id) && StaleData(config, h.client.store, id, now).Some?
    ensures exists storedAt: nat ::
              CameFrom(h.log, id, StaleData(config, h.client.store, id, now).value, storedAt, now, StaleTtlSeconds(config.ttlSeconds))
  {
    hide FreshKey, StaleKey, StaleTtlSeconds;
    var slot := h.client.store[StaleKey(config, id)];
    assert CameFrom(h.log, id, slot.payload.data, slot.payload.cachedAt, now, StaleTtlSeconds(config.ttlSeconds));
  }

  lemma CachedJustified<V>(config: Config<V>, h: History<V>, id: string, now: nat)
    requires ExplainedFor(config, h, id) && Live(h.client.store, FreshKey(config, id), now).Some?
    ensures var p := Live(h.client.store, FreshKey(config, id), now).value;
            CameFrom(h.log, id, p.data, p.cachedAt, now, config.ttlSeconds)
  {
    hide FreshKey, StaleKey;
  }

  lemma HitJustified<V>(config: Config<V>, h: History<V>, id: string, start: nat, finish: nat, tries: Tries<V>)
    requires ExplainedFor(config, h, id) && Live(h.client.store, FreshKey(config, id), start).Some?
    ensures Justified(config, h, id, start, finish, tries, FetchStep(config, h.client, id, start, finish, tries).1)
  {
    CachedJustified(config, h, id, start);
    hide ExplainedFor, FreshKey, Live, CameFrom, Stores;
  }

  /** Stale data found at `now` is justified in a result that gives nothing better. */
  lemma DegradedJustified<V>(config: Config<V>, h: History<V>, id: string, start: nat, finish: nat, tries: Tries<V>, now: nat, status: Status)
    requires ExplainedFor(config, h, id) && start <= now <= finish && status != OkStatus
    ensures Justified(config, h, id, start, finish, tries,
                      FetchResult(StaleData(config, h.client.store, id, now), status, None, true))
  {
    if StaleData(config, h.client.store, id, now).Some? {
      StaleJustified(config, h, id, now);
    }
    hide ExplainedFor, StaleData, CameFrom, Stores;
  }

  lemma MissJustified<V>(config: Config<V>, h: History<V>, id: string, start: nat, finish: nat, tries: Tries<V>)
    requires ExplainedFor(config, h, id) && start <= finish && Live(h.client.store, FreshKey(config, id), start).None?
    ensures Justified(config, h, id, start, finish, tries, FetchStep(config, h.client, id, start, finish, tries).1)
  {
    hide ExplainedFor, FreshKey, Live, StaleData, CameFrom, SetBoth, Obtained,
         CircuitBreaker.Observe, CircuitBreaker.Fail, CircuitBreaker.Succeed;
    if !IsPermitted(config, h.client, start) {
      DegradedJustified(config, h, id, start, finish, tries, start, Degraded);
    } else if Obtained(config, tries).None? {
      DegradedJustified(config, h, id, start, finish, tries, finish, Degraded);
      DegradedJustified(config, h, id, start, finish, tries, finish, Unavailable);
    }
  }

  lemma FetchJustified<V>(config: Config<V>, h: History<V>, id: string, start: nat, finish: nat, tries: Tries<V>)
    requires ExplainedFor(config, h, id) && start <= finish
    ensures Justified(config, h, id, start, finish, tries, FetchStep(config, h.client, id, start, finish, tries).1)
  {
    hide ExplainedFor, Justified, FetchStep, Live;
    if Live(h.client.store, FreshKey(config, id), start).Some? {
      HitJustified(config, h, id, start, finish, tries);
    } else {
      MissJustified(config, h, id, start, finish, tries);
    }
  }

  /** Over every run: an ok result is new or younger than the ttl; stale data is younger than its longer
      life; and cached data is always the last value stored for that id, not invalidated since. */
  lemma FetchFreshness<V>(config: Config<V>, ops: seq<Op<V>>, id: string, start: nat, finish: nat, tries: Tries<V>)
    requires ProperRun(config, ops) && Run(config, ops).clock <= start <= finish && !EndsInStale(id)
    ensures var h := Run(config, ops);
            Justified(config, h, id, start, finish, tries, FetchStep(config, h.client, id, start, finish, tries).1)
  {
    RunSound(config, ops);
    assert ExplainedFor(config, Run(config, ops), id);
    hide Run, Sound, ProperRun, ExplainedFor, Justified, FetchStep;
    FetchJustified(config, Run(config, ops), id, start, finish, tries);
  }

  /** Nothing stored before the last write or invalidation of an id can come out of the cache for it. */
  lemma NothingOlderThanInvalidation<V>(log: seq<CacheEvent<V>>, m: nat, id: string, data: V, storedAt: nat, now: nat, lifetime: nat)
    requires CameFrom(log, id, data, storedAt, now, lifetime)
    requires m < |log| && (log[m] == Invalidated(id) || log[m] == AllInvalidated)
    ensures exists k: nat :: m < k && LastStored(log, k, id, data, storedAt)
  {
    var k: nat :| LastStored(log, k, id, data, storedAt);
    assert Concerns(log[m], id);
  }

  /** A successful supported write leaves an invalidation at the end of the log. */
  lemma MutateInvalidates<V>(config: Config<V>, h: History<V>, id: string, start: nat, finish: nat, writes: nat -> Retry.Attempt<()>)
    requires MutateStep(config, h.client, true, id, start, finish, writes).1 == MutateResult(OkStatus, false)
    ensures var after := Apply(config, h, MutateOp(true, id, start, finish, writes));
            after.log == h.log + [Invalidated(id)]
  {
    hide FreshKey, StaleKey;
  }

  lemma RunStep<V>(config: Config<V>, ops: seq<Op<V>>, op: Op<V>)
    ensures Run(config, ops + [op]) == Apply(config, Run(config, ops), op)
  {
    assert (ops + [op])[..|ops + [op]| - 1] == ops;
  }

  lemma {:induction false} LogGrows<V>(config: Config<V>, ops: seq<Op<V>>, later: seq<Op<V>>)
    ensures Run(config, ops).log <= Run(config, ops + later).log
    decreases |later|
  {
    if later == [] {
      assert ops + later == ops;
    } else {
      var n := |later| - 1;
      assert ops + later == ops + later[..n] + [later[n]];
      RunStep(config, ops + later[..n], later[n]);
      LogGrows(config, ops, later[..n]);
      hide Run, FetchStep, MutateStep, Stores, Rewrites, Obtained;
    }
  }

  /** After a successful write, whatever later operations happen, a fetch returns only newer values. */
  lemma NoStaleReadAfterWrite<V>(config: Config<V>, ops: seq<Op<V>>, write: Op<V>, later: seq<Op<V>>, id: string, start: nat,
                                 finish: nat, tries: Tries<V>)
    requires write.MutateOp? && write.supported && write.id == id
    requires MutateStep(config, Run(config, ops).client, true, id, write.start, write.finish, write.writes).1 == MutateResult(OkStatus, false)
    requires var all := ops + [write] + later;
             ProperRun(config, all) && Run(config, all).clock <= start <= finish && !EndsInStale(id)
    ensures var h := Run(config, ops + [write] + later);
            var r := FetchStep(config, h.client, id, start, finish, tries).1;
            var m := |Run(config, ops).log|;
            r.data.Some? ==>
              || (Stores(config, h.client, id, start, tries) && Obtained(config, tries) == r.data)
              || exists k: nat, storedAt: nat :: m < k && LastStored(h.log, k, id, r.data.value, storedAt)
  {
    var all := ops + [write] + later;
    var m := |Run(config, ops).log|;
    RunStep(config, ops, write);
    MutateInvalidates(config, Run(config, ops), id, write.start, write.finish, write.writes);
    LogGrows(config, ops + [write], later);
    FetchFreshness(config, all, id, start, finish, tries);
    hide Run, Apply, FetchStep, MutateStep, Justified, ProperRun, LastStored, Stores, Obtained, EndsInStale;
    var h := Run(config, all);
    assert h.log[m] == Invalidated(id) by {
      assert Run(config, ops + [write]).log[m] == Invalidated(id);
    }
    var r := FetchStep(config, h.client, id, start, finish, tries).1;
    if r.data.Some? {
      AfterInvalidation(config, h, m, id, start, finish, tries, r);
    }
  }

  lemma AfterInvalidation<V>(config: Config<V>, h: History<V>, m: nat, id: string, start: nat, finish: nat, tries: Tries<V>,
                             r: FetchResult<V>)
    requires Justified(config, h, id, start, finish, tries, r) && r.data.Some?
    requires m < |h.log| && h.log[m] == Invalidated(id)
    ensures || (Stores(config, h.client, id, start, tries) && Obtained(config, tries) == r.data)
            || exists k: nat, storedAt: nat :: m < k && LastStored(h.log, k, id, r.data.value, storedAt)
  {
    hide Obtained, StaleTtlSeconds, LastStored, Stores;
    if !(Stores(config, h.client, id, start, tries) && Obtained(config, tries) == r.data) {
      if r.status == OkStatus {
        NothingOlderThanInvalidation(h.log, m, id, r.data.value, r.cachedAt.value, start, config.ttlSeconds);
      } else {
        var storedAt: nat, now: nat :| start <= now <= finish
          && CameFrom(h.log, id, r.data.value, storedAt, now, StaleTtlSeconds(config.ttlSeconds));
        NothingOlderThanInvalidation(h.log, m, id, r.data.value, storedAt, now, StaleTtlSeconds(config.ttlSeconds));
      }
    }
  }

  /** The suffix matters: an id that ends in it can be answered with another id's expired value, as if fresh. */
  lemma SuffixedIdReadsStaleTier<V>(config: Config<V>, c: Client<V>, id: string, data: V, at: nat, start: nat, finish: nat, tries: Tries<V>)
    requires at + config.ttlSeconds * 1000 <= start < at + StaleTtlSeconds(config.ttlSeconds) * 1000
    ensures var store := SetBoth(c.store, FreshKey(config, id), StaleKey(config, id), data, config.ttlSeconds, at);
            var r := FetchStep(config, Client(store, c.breaker), id + STALE_SUFFIX, start, finish, tries).1;
            r == FetchResult(Some(data), OkStatus, Some(at), false)
  {
    TiersCollide(config.tenant, config.keyPrefix, id + STALE_SUFFIX, id);
    hide BuildKey, BuildStaleKey;
  }

  /** An open breaker keeps every call from the provider until its timeout has passed. */
  lemma OpenBreakerShields<V>(config: Config<V>, c: Client<V>, id: string, start: nat, finish: nat, tries: Tries<V>)
    requires c.breaker.state == CircuitBreaker.Open && start - c.breaker.lastFailureTime < config.breaker.resetTimeoutMs
    ensures !IsPermitted(config, c, start)
    ensures FetchStep(config, c, id, start, finish, tries).0 == c
    ensures forall other: Tries<V> :: FetchStep(config, c, id, start, finish, other) == FetchStep(config, c, id, start, finish, tries)
  {
    hide FreshKey, StaleKey;
  }
}
