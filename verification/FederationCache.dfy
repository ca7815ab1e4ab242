/** The two-tier cache of the federation layer over a key-value store with expiry.

  Time is in milliseconds, lifetimes in seconds. A key is live until its expiry.
 */
module FederationCache {
  import opened Options

  datatype Payload<V> = Payload(data: V, cachedAt: nat)

  datatype Slot<V> = Slot(payload: Payload<V>, expiresAt: nat)

  type Store<V> = map<string, Slot<V>>

  const STALE_SUFFIX := ":stale"

  function BuildKey(tenant: string, prefix: string, id: string): string {
    "phynd:" + tenant + ":" + prefix + ":" + id
  }

  function BuildStaleKey(tenant: string, prefix: string, id: string): string {
    BuildKey(tenant, prefix, id) + STALE_SUFFIX
  }

  function StaleTtlSeconds(ttlSeconds: nat): nat {
    if ttlSeconds * 5 >= 900 then ttlSeconds * 5 else 900
  }

  function Live<V>(store: Store<V>, key: string, now: nat): Option<Payload<V>> {
    if key in store && now < store[key].expiresAt then Some(store[key].payload) else None
  }

  function SetBoth<V>(store: Store<V>, key: string, staleKey: string, data: V, ttlSeconds: nat, now: nat): Store<V> {
    store[key := Slot(Payload(data, now), now + ttlSeconds * 1000)]
         [staleKey := Slot(Payload(data, now), now + StaleTtlSeconds(ttlSeconds) * 1000)]
  }

  predicate EndsInStale(id: string) {
    |id| >= |STALE_SUFFIX| && id[|id| - |STALE_SUFFIX|..] == STALE_SUFFIX
  }

  lemma BuildKeyInjective(tenant: string, prefix: string, a: string, b: string)
    requires BuildKey(tenant, prefix, a) == BuildKey(tenant, prefix, b)
    ensures a == b
  {
    var head := "phynd:" + tenant + ":" + prefix + ":";
    assert BuildKey(tenant, prefix, a) == head + a && BuildKey(tenant, prefix, b) == head + b;
    CancelPrefix(head, a, b);
  }

  lemma CancelPrefix(head: string, a: string, b: string)
    requires head + a == head + b
    ensures a == b
  {
    assert a == (head + a)[|head|..] && b == (head + b)[|head|..];
  }

  lemma CancelSuffix(a: string, b: string, tail: string)
    requires a + tail == b + tail
    ensures a == b
  {
    assert |a| == |b|;
    assert a == (a + tail)[..|a|] && b == (b + tail)[..|b|];
  }

  ghost predicate NoColon(s: string) {
    forall i | 0 <= i < |s| :: s[i] != ':'
  }

  lemma ColonEnds(a: string, b: string, x: string, y: string)
    requires NoColon(a) && NoColon(b) && a + ":" + x == b + ":" + y
    ensures a == b && x == y
  {
    var (u, v) := (a + ":" + x, b + ":" + y);
    assert u[|a|] == ':' && v[|b|] == ':';
    assert (forall i | 0 <= i < |a| :: u[i] == a[i]) && (forall i | 0 <= i < |b| :: v[i] == b[i]);
    assert |a| == |b|;
    assert a == u[..|a|] && b == v[..|b|];
    CancelPrefix(a + ":", x, y);
  }

  /** Tenants never share a key, nor do the kinds of record of one tenant, as long as their names hold no colon. */
  lemma TenantsApart(tenant: string, prefix: string, id: string, tenant': string, prefix': string, id': string)
    requires NoColon(tenant) && NoColon(tenant') && NoColon(prefix) && NoColon(prefix')
    requires BuildKey(tenant, prefix, id) == BuildKey(tenant', prefix', id')
    ensures tenant == tenant' && prefix == prefix' && id == id'
  {
    assert BuildKey(tenant, prefix, id) == "phynd:" + (tenant + ":" + (prefix + ":" + id));
    assert BuildKey(tenant', prefix', id') == "phynd:" + (tenant' + ":" + (prefix' + ":" + id'));
    hide BuildKey, NoColon;
    CancelPrefix("phynd:", tenant + ":" + (prefix + ":" + id), tenant' + ":" + (prefix' + ":" + id'));
    ColonEnds(tenant, tenant', prefix + ":" + id, prefix' + ":" + id');
    ColonEnds(prefix, prefix', id, id');
  }

  /** A fresh key is some other id's stale key exactly when the id is that id with the suffix. */
  lemma TiersCollide(tenant: string, prefix: string, a: string, b: string)
    ensures BuildKey(tenant, prefix, a) == BuildStaleKey(tenant, prefix, b) <==> a == b + STALE_SUFFIX
  {
    var head := "phynd:" + tenant + ":" + prefix + ":";
    assert BuildStaleKey(tenant, prefix, b) == head + (b + STALE_SUFFIX);
    if BuildKey(tenant, prefix, a) == BuildStaleKey(tenant, prefix, b) {
      CancelPrefix(head, a, b + STALE_SUFFIX);
    }
  }

  /** Ids that do not end in the suffix keep the two tiers, and each other, apart. */
  lemma KeysApart(tenant: string, prefix: string, a: string, b: string)
    requires !EndsInStale(a) && !EndsInStale(b)
    ensures BuildKey(tenant, prefix, a) != BuildStaleKey(tenant, prefix, b)
    ensures BuildStaleKey(tenant, prefix, a) != BuildKey(tenant, prefix, b)
    ensures BuildKey(tenant, prefix, a) == BuildKey(tenant, prefix, b) <==> a == b
    ensures BuildStaleKey(tenant, prefix, a) == BuildStaleKey(tenant, prefix, b) <==> a == b
  {
    TiersCollide(tenant, prefix, a, b);
    TiersCollide(tenant, prefix, b, a);
    assert EndsInStale(b + STALE_SUFFIX) && EndsInStale(a + STALE_SUFFIX);
    hide EndsInStale;
    if BuildStaleKey(tenant, prefix, a) == BuildStaleKey(tenant, prefix, b) {
      CancelSuffix(BuildKey(tenant, prefix, a), BuildKey(tenant, prefix, b), STALE_SUFFIX);
    }
    if BuildKey(tenant, prefix, a) == BuildKey(tenant, prefix, b) {
      BuildKeyInjective(tenant, prefix, a, b);
    }
  }

  class CacheManager<V> {
    var redis: Store<V>
    const tenant: string

    constructor (tenant: string)
      ensures this.tenant == tenant && redis == map[]
    {
      this.tenant := tenant;
      redis := map[];
    }

    method Get(prefix: string, id: string, now: nat) returns (r: Option<Payload<V>>)
      ensures r == Live(redis, BuildKey(tenant, prefix, id), now)
    {
      var key := BuildKey(tenant, prefix, id);
      if key !in redis || redis[key].expiresAt <= now {
        return None;
      }
      return Some(redis[key].payload);
    }

    method Set(prefix: string, id: string, data: V, ttlSeconds: nat, now: nat)
      modifies this
      ensures redis == SetBoth(old(redis), BuildKey(tenant, prefix, id), BuildStaleKey(tenant, prefix, id), data, ttlSeconds, now)
    {
      var payload := Payload(data, now);
      redis := redis[BuildKey(tenant, prefix, id) := Slot(payload, now + ttlSeconds * 1000)];
      redis := redis[BuildStaleKey(tenant, prefix, id) := Slot(payload, now + StaleTtlSeconds(ttlSeconds) * 1000)];
    }

    method Invalidate(prefix: string, id: string)
      modifies this
      ensures redis == old(redis) - {BuildKey(tenant, prefix, id), BuildStaleKey(tenant, prefix, id)}
    {
      redis := redis - {BuildKey(tenant, prefix, id), BuildStaleKey(tenant, prefix, id)};
    }

    /** Deletes every key under the prefix; both tiers of every id are under it. */
    method InvalidatePattern(prefix: string)
      modifies this
      ensures forall key :: key in redis <==> key in old(redis) && !(BuildKey(tenant, prefix, "") <= key)
      ensures forall key | key in redis :: redis[key] == old(redis)[key]
      ensures forall id :: BuildKey(tenant, prefix, id) !in redis && BuildStaleKey(tenant, prefix, id) !in redis
    {
      var head := BuildKey(tenant, prefix, "");
      var keys := set key | key in redis && head <= key;
      redis := redis - keys;
      forall id ensures head <= BuildKey(tenant, prefix, id) && head <= BuildStaleKey(tenant, prefix, id) {
        assert BuildKey(tenant, prefix, id) == head + id;
        assert BuildStaleKey(tenant, prefix, id) == head + (id + STALE_SUFFIX);
      }
    }

    method GetStale(prefix: string, id: string, now: nat) returns (r: Option<V>)
      ensures r == match Live(redis, BuildStaleKey(tenant, prefix, id), now) case Some(p) => Some(p.data) case None => None
    {
      var staleKey := BuildStaleKey(tenant, prefix, id);
      if staleKey !in redis || redis[staleKey].expiresAt <= now {
        return None;
      }
      return Some(redis[staleKey].payload.data);
    }
  }
}
