/** The cache in front of the users table: bounded, short-lived, kept in insertion order. */
module UserResolver {
  import opened Options

  /** One entry of the map; `user` is nothing when the subject is linked to nobody. */
  datatype Slot = Slot(key: string, user: Option<string>, expiresAt: int)

  type Cache = seq<Slot>

  datatype Settings = Settings(ttlMs: int, maxEntries: int)

  const NUL: char := '\0'

  function CacheKey(tenant: string, subject: string): string {
    tenant + [NUL] + subject
  }

  function Find(cache: Cache, key: string): (r: Option<nat>)
    ensures r.Some? ==> r.value < |cache| && cache[r.value].key == key
    ensures r.None? ==> forall i | 0 <= i < |cache| :: cache[i].key != key
  {
    if cache == [] then None
    else if cache[0].key == key then Some(0)
    else
      match Find(cache[1..], key)
      case Some(i) => Some(i + 1)
      case None => None
  }

  function Delete(cache: Cache, key: string): Cache {
    match Find(cache, key)
    case Some(i) => cache[..i] + cache[i + 1..]
    case None => cache
  }

  /** The cache stands for a map, so no key occurs twice. */
  ghost predicate DistinctKeys(cache: Cache) {
    forall i, j | 0 <= i < j < |cache| :: cache[i].key != cache[j].key
  }

  /** The slots of the cache are those of the earlier one whose key is another. */
  ghost predicate Without(cache: Cache, earlier: Cache, key: string) {
    forall slot :: slot in cache <==> slot in earlier && slot.key != key
  }

  /** Deleting removes the slot of the key and no other. */
  lemma DeleteExact(cache: Cache, key: string)
    requires DistinctKeys(cache)
    ensures DistinctKeys(Delete(cache, key)) && Without(Delete(cache, key), cache, key)
  {
    var found := Find(cache, key);
    hide Find;
    if found.Some? {
      RemoveAt(cache, found.value);
    }
  }

  function EvictOldest(cache: Cache, settings: Settings): Cache {
    if |cache| >= settings.maxEntries && cache != [] then cache[1..] else cache
  }

  function Store(cache: Cache, key: string, user: Option<string>, now: int, settings: Settings): Cache {
    EvictOldest(Delete(cache, key), settings) + [Slot(key, user, now + settings.ttlMs)]
  }

  /** The cached answer, when there is one that has not expired. */
  function Hit(cache: Cache, key: string, now: int): Option<Option<string>> {
    match Find(cache, key)
    case Some(i) => if cache[i].expiresAt > now then Some(cache[i].user) else None
    case None => None
  }

  /** `row` is what the users table answers, if it is asked. */
  function ResolveStep(cache: Cache, tenant: string, subject: string, row: Option<string>, now: int, settings: Settings)
    : (Cache, Option<string>)
  {
    if subject == "" then (cache, None)
    else
      var key := CacheKey(tenant, subject);
      match Hit(cache, key, now)
      case Some(user) => (cache, user)
      case None => (Store(cache, key, row, now, settings), row)
  }

  class Resolver {
    var cache: Cache
    const settings: Settings

    constructor (settings: Settings)
      ensures this.settings == settings && cache == []
    {
      this.settings := settings;
      cache := [];
    }

    method Resolve(tenant: string, subject: string, row: Option<string>, now: int) returns (user: Option<string>)
      modifies this
      ensures (cache, user) == ResolveStep(old(cache), tenant, subject, row, now, settings)
    {
      if subject == "" {
        return None;
      }
      var key := CacheKey(tenant, subject);
      var found := Find(cache, key);
      if found.Some? && cache[found.value].expiresAt > now {
        return cache[found.value].user;
      }
      StoreEntry(key, row, now);
      return row;
    }

    method StoreEntry(key: string, user: Option<string>, now: int)
      modifies this
      ensures cache == Store(old(cache), key, user, now, settings)
    {
      hide Delete;
      cache := Delete(cache, key);
      if |cache| >= settings.maxEntries {
        if |cache| > 0 {
          cache := cache[1..];
        }
      }
      cache := cache + [Slot(key, user, now + settings.ttlMs)];
    }

    method Invalidate(tenant: string, subject: string)
      modifies this
      ensures cache == Delete(old(cache), CacheKey(tenant, subject))
      ensures DistinctKeys(old(cache)) ==> DistinctKeys(cache) && Without(cache, old(cache), CacheKey(tenant, subject))
    {
      if DistinctKeys(cache) { DeleteExact(cache, CacheKey(tenant, subject)); }
      cache := Delete(cache, CacheKey(tenant, subject));
    }

    method Clear()
      modifies this
      ensures cache == []
    {
      cache := [];
    }
  }

  // ---- What a resolution answers and keeps ---------------------------------------------------

  /** The slot of the key that is still good. */
  ghost predicate Good(cache: Cache, slot: Slot, key: string, now: int) {
    slot in cache && slot.key == key && now < slot.expiresAt
  }

  /** No subject, no answer. A good slot answers and nothing changes; else the table answers, and its answer is good for
      the lifetime from now. */
  lemma ResolveExactly(cache: Cache, tenant: string, subject: string, row: Option<string>, now: int, settings: Settings)
    requires DistinctKeys(cache)
    ensures var (after, user) := ResolveStep(cache, tenant, subject, row, now, settings);
            var key := CacheKey(tenant, subject);
            if subject == "" then after == cache && user == None
            else if exists slot :: Good(cache, slot, key, now)
            then after == cache && exists slot :: Good(cache, slot, key, now) && user == slot.user
            else user == row && after != [] && after[|after| - 1] == Slot(key, row, now + settings.ttlMs)
  {
    var key := CacheKey(tenant, subject);
    var found := Find(cache, key);
    hide CacheKey, Find, Delete, EvictOldest;
    if found.Some? {
      var slot := cache[found.value];
      assert slot in cache;
      forall other | Good(cache, other, key, now) ensures other == slot {
        var i :| 0 <= i < |cache| && cache[i] == other;
      }
      if slot.expiresAt > now { assert Good(cache, slot, key, now); }
    } else {
      forall slot ensures !Good(cache, slot, key, now) {
      }
    }
  }

  /** Nothing is evicted while there is room; a full cache gives up its oldest slot and no other. */
  lemma StoreKeeps(cache: Cache, key: string, user: Option<string>, now: int, settings: Settings)
    requires DistinctKeys(cache)
    ensures var others := Delete(cache, key);
            var after := Store(cache, key, user, now, settings);
            && Without(others, cache, key)
            && after == (if |others| < settings.maxEntries || others == [] then others else others[1..]) + [Slot(key, user, now + settings.ttlMs)]
  {
    DeleteExact(cache, key);
    hide Delete;
  }

  // ---- Keys ------------------------------------------------------------------------

  predicate HasNul(s: string) {
    exists i | 0 <= i < |s| :: s[i] == NUL
  }

  lemma NulNotBefore(tenant: string, subject: string, i: nat)
    requires !HasNul(tenant) && i < |CacheKey(tenant, subject)| && CacheKey(tenant, subject)[i] == NUL
    ensures i >= |tenant|
  {
    forall j | 0 <= j < |tenant| ensures CacheKey(tenant, subject)[j] != NUL {
      assert tenant[j] != NUL;
    }
  }

  /** Tenants without NUL never share a key, whatever the subjects. */
  lemma CacheKeyInjective(tenant: string, subject: string, tenant': string, subject': string)
    requires !HasNul(tenant) && !HasNul(tenant')
    requires CacheKey(tenant, subject) == CacheKey(tenant', subject')
    ensures tenant == tenant' && subject == subject'
  {
    var a, b := CacheKey(tenant, subject), CacheKey(tenant', subject');
    assert a[|tenant|] == NUL && b[|tenant'|] == NUL;
    NulNotBefore(tenant, subject, |tenant'|);
    NulNotBefore(tenant', subject', |tenant|);
    assert tenant == a[..|tenant|] == b[..|tenant'|] == tenant';
    assert subject == a[|tenant| + 1..] == b[|tenant'| + 1..] == subject';
  }

  /** A NUL in a tenant is enough to make two pairs collide. */
  lemma NulTenantsCollide(a: string, b: string, subject: string)
    ensures CacheKey(a + [NUL] + b, subject) == CacheKey(a, b + [NUL] + subject)
  {
    assert a + [NUL] + b + [NUL] + subject == a + [NUL] + (b + [NUL] + subject);
  }

  // ---- Histories ---------------------------------------------------------------------

  datatype Op =
    | ResolveOp(tenant: string, subject: string, row: Option<string>, now: int)
    | InvalidateOp(tenant: string, subject: string)
    | ClearOp

  /** Table lookups and removals, oldest first. */
  datatype Event = Looked(tenant: string, subject: string, user: Option<string>, at: int) | Dropped(tenant: string, subject: string) | AllDropped

  datatype History = History(cache: Cache, log: seq<Event>, clock: int)

  function Apply(h: History, op: Op, settings: Settings): History {
    match op
    case ResolveOp(tenant, subject, row, now) =>
      var cache := ResolveStep(h.cache, tenant, subject, row, now, settings).0;
      if subject == "" || Hit(h.cache, CacheKey(tenant, subject), now).Some? then History(cache, h.log, now)
      else History(cache, h.log + [Looked(tenant, subject, row, now)], now)
    case InvalidateOp(tenant, subject) =>
      History(Delete(h.cache, CacheKey(tenant, subject)), h.log + [Dropped(tenant, subject)], h.clock)
    case ClearOp => History([], h.log + [AllDropped], h.clock)
  }

  function Run(start: int, ops: seq<Op>, settings: Settings): History {
    if ops == [] then History([], [], start) else Apply(Run(start, ops[..|ops| - 1], settings), ops[|ops| - 1], settings)
  }

  /** The clock never goes back and no tenant holds a NUL. */
  ghost predicate Proper(clock: int, op: Op) {
    match op
    case ResolveOp(tenant, _, _, now) => clock <= now && !HasNul(tenant)
    case InvalidateOp(tenant, _) => !HasNul(tenant)
    case ClearOp => true
  }

  ghost predicate ProperRun(start: int, ops: seq<Op>, settings: Settings) {
    forall n | 0 <= n < |ops| :: Proper(Run(start, ops[..n], settings).clock, ops[n])
  }

  predicate Concerns(e: Event, tenant: string, subject: string) {
    match e
    case Looked(t, s, _, _) => t == tenant && s == subject
    case Dropped(t, s) => t == tenant && s == subject
    case AllDropped => true
  }

  /** The event at `k` looked the pair up at `at` with this answer, and nothing concerned the pair since. */
  ghost predicate LastLooked(log: seq<Event>, k: nat, tenant: string, subject: string, user: Option<string>, at: int) {
    && k < |log|
    && log[k] == Looked(tenant, subject, user, at)
    && forall m | k < m < |log| :: !Concerns(log[m], tenant, subject)
  }

  /** The slot is the pair's, and holds what its last lookup, at event `k`, answered. */
  ghost predicate ExplainedBy(log: seq<Event>, slot: Slot, tenant: string, subject: string, k: nat, settings: Settings) {
    && !HasNul(tenant)
    && slot.key == CacheKey(tenant, subject)
    && LastLooked(log, k, tenant, subject, slot.user, slot.expiresAt - settings.ttlMs)
  }

  ghost predicate SlotExplained(log: seq<Event>, slot: Slot, settings: Settings) {
    exists tenant, subject, k: nat :: ExplainedBy(log, slot, tenant, subject, k, settings)
  }

  function Limit(settings: Settings): int {
    if settings.maxEntries > 1 then settings.maxEntries else 1
  }

  ghost predicate Ordered(cache: Cache) {
    forall i, j | 0 <= i < j < |cache| :: cache[i].expiresAt <= cache[j].expiresAt && cache[i].key != cache[j].key
  }

  ghost predicate Shaped(cache: Cache, clock: int, settings: Settings) {
    && Ordered(cache)
    && |cache| <= Limit(settings)
    && forall i | 0 <= i < |cache| :: cache[i].expiresAt <= clock + settings.ttlMs
  }

  ghost predicate Sound(h: History, settings: Settings) {
    && Shaped(h.cache, h.clock, settings)
    && forall i | 0 <= i < |h.cache| :: SlotExplained(h.log, h.cache[i], settings)
  }

  lemma RemoveAt(cache: Cache, i: nat)
    requires i < |cache|
    ensures var r := cache[..i] + cache[i + 1..];
            && |r| == |cache| - 1
            && (forall j | 0 <= j < |r| :: r[j] == if j < i then cache[j] else cache[j + 1])
            && (forall slot | slot in cache :: slot == cache[i] || slot in r)
  {
    assert cache == cache[..i] + [cache[i]] + cache[i + 1..];
  }

  /** Deleting keeps order and leaves exactly the other keys. */
  lemma DeleteShape(cache: Cache, key: string)
    requires Ordered(cache)
    ensures var r := Delete(cache, key);
            && Ordered(r)
            && |r| <= |cache|
            && Without(r, cache, key)
  {
    DeleteExact(cache, key);
    var r := Delete(cache, key);
    assert forall i | 0 <= i < |r| :: r[i] in r;
    var found := Find(cache, key);
    hide Find;
    if found.Some? {
      RemovedOrdered(cache, found.value);
    }
  }

  lemma RemovedOrdered(cache: Cache, i: nat)
    requires Ordered(cache) && i < |cache|
    ensures Ordered(cache[..i] + cache[i + 1..])
  {
    var r := cache[..i] + cache[i + 1..];
    assert forall j | 0 <= j < |r| :: r[j] == if j < i then cache[j] else cache[j + 1];
  }

  lemma EvictShape(cache: Cache, settings: Settings)
    requires Ordered(cache)
    ensures var r := EvictOldest(cache, settings);
            && Ordered(r)
            && |r| <= |cache|
            && (|cache| <= Limit(settings) ==> |r| < Limit(settings))
            && forall slot | slot in r :: slot in cache
  {
  }

  lemma AppendShape(cache: Cache, slot: Slot)
    requires Ordered(cache)
    requires forall other | other in cache :: other.expiresAt <= slot.expiresAt && other.key != slot.key
    ensures Ordered(cache + [slot])
  {
  }

  lemma {:induction false} StoreShape(cache: Cache, key: string, user: Option<string>, clock: int, now: int, settings: Settings)
    requires Shaped(cache, clock, settings) && clock <= now
    ensures Shaped(Store(cache, key, user, now, settings), now, settings)
    ensures forall slot | slot in Store(cache, key, user, now, settings) ::
              slot == Slot(key, user, now + settings.ttlMs) || (slot in cache && slot.key != key)
  {
    DeleteShape(cache, key);
    var deleted := Delete(cache, key);
    hide Delete, Ordered;
    EvictShape(deleted, settings);
    var kept := EvictOldest(deleted, settings);
    hide EvictOldest, Limit;
    forall slot | slot in kept ensures slot in cache && slot.key != key && slot.expiresAt <= now + settings.ttlMs {
      assert slot in deleted && slot in cache;
    }
    AppendShape(kept, Slot(key, user, now + settings.ttlMs));
  }

  /** Eviction drops the entry that expires first. */
  lemma EvictionDropsEarliest(cache: Cache, settings: Settings)
    requires Ordered(cache) && |cache| >= settings.maxEntries && cache != []
    ensures forall slot | slot in EvictOldest(cache, settings) :: cache[0].expiresAt <= slot.expiresAt && slot != cache[0]
    ensures forall slot | slot in cache && slot != cache[0] :: slot in EvictOldest(cache, settings)
  {
  }

  lemma StillExplained(log: seq<Event>, e: Event, slot: Slot, settings: Settings)
    requires SlotExplained(log, slot, settings)
    requires forall tenant, subject | !HasNul(tenant) && slot.key == CacheKey(tenant, subject) :: !Concerns(e, tenant, subject)
    ensures SlotExplained(log + [e], slot, settings)
  {
    hide HasNul, CacheKey;
    var tenant, subject, k: nat :| ExplainedBy(log, slot, tenant, subject, k, settings);
    assert ExplainedBy(log + [e], slot, tenant, subject, k, settings);
  }

  /** An event about one pair does not concern a slot under another key. */
  lemma OtherKeyUnconcerned(e: Event, tenant: string, subject: string, slot: Slot)
    requires !HasNul(tenant) && slot.key != CacheKey(tenant, subject)
    requires e == Dropped(tenant, subject) || (e.Looked? && e.tenant == tenant && e.subject == subject)
    ensures forall t, s | !HasNul(t) && slot.key == CacheKey(t, s) :: !Concerns(e, t, s)
  {
    hide HasNul, CacheKey;
  }

  lemma ResolveSound(h: History, op: Op, settings: Settings)
    requires Sound(h, settings) && Proper(h.clock, op) && op.ResolveOp?
    ensures Sound(Apply(h, op, settings), settings)
  {
    var key := CacheKey(op.tenant, op.subject);
    var after := Apply(h, op, settings);
    if op.subject != "" && Hit(h.cache, key, op.now).None? {
      StoreShape(h.cache, key, op.row, h.clock, op.now, settings);
      var e := Looked(op.tenant, op.subject, op.row, op.now);
      assert after == History(Store(h.cache, key, op.row, op.now, settings), h.log + [e], op.now);
      hide Apply, Store, Hit, CacheKey, HasNul, Shaped;
      forall i | 0 <= i < |after.cache| ensures SlotExplained(after.log, after.cache[i], settings) {
        var slot := after.cache[i];
        if slot == Slot(key, op.row, op.now + settings.ttlMs) {
          assert ExplainedBy(after.log, slot, op.tenant, op.subject, |h.log|, settings);
        } else {
          assert slot in h.cache && slot.key != key;
          assert SlotExplained(h.log, slot, settings);
          OtherKeyUnconcerned(e, op.tenant, op.subject, slot);
          StillExplained(h.log, e, slot, settings);
        }
      }
    }
  }

  lemma InvalidateSound(h: History, op: Op, settings: Settings)
    requires Sound(h, settings) && Proper(h.clock, op) && op.InvalidateOp?
    ensures Sound(Apply(h, op, settings), settings)
  {
    var key := CacheKey(op.tenant, op.subject);
    var after := Apply(h, op, settings);
    DeleteShape(h.cache, key);
    hide Delete, CacheKey, HasNul;
    forall i | 0 <= i < |after.cache| ensures SlotExplained(after.log, after.cache[i], settings) {
      var slot := after.cache[i];
      assert slot in h.cache && slot.key != key;
      assert SlotExplained(h.log, slot, settings);
      OtherKeyUnconcerned(Dropped(op.tenant, op.subject), op.tenant, op.subject, slot);
      StillExplained(h.log, Dropped(op.tenant, op.subject), slot, settings);
    }
  }

  lemma {:induction false} RunSound(start: int, ops: seq<Op>, settings: Settings)
    requires ProperRun(start, ops, settings)
    ensures Sound(Run(start, ops, settings), settings)
  {
    if ops != [] {
      var n := |ops| - 1;
      forall m | 0 <= m < n ensures Proper(Run(start, ops[..n][..m], settings).clock, ops[..n][m]) {
        assert ops[..n][..m] == ops[..m];
        assert Proper(Run(start, ops[..m], settings).clock, ops[m]);
      }
      RunSound(start, ops[..n], settings);
      assert Proper(Run(start, ops[..n], settings).clock, ops[n]);
      hide Apply, Sound, Proper;
      if ops[n].ResolveOp? {
        ResolveSound(Run(start, ops[..n], settings), ops[n], settings);
      } else if ops[n].InvalidateOp? {
        InvalidateSound(Run(start, ops[..n], settings), ops[n], settings);
      } else {
        ClearSound(Run(start, ops[..n], settings), settings);
      }
    }
  }

  lemma ClearSound(h: History, settings: Settings)
    ensures Sound(Apply(h, ClearOp, settings), settings)
  {
  }

  // ---- Main results --------------------------------------------------------------------

  /** In every run the cache stays within its bound and in order of expiry, with each key once. */
  lemma {:induction false} CacheStaysBoundedAndOrdered(start: int, ops: seq<Op>, settings: Settings)
    requires ProperRun(start, ops, settings)
    ensures var cache := Run(start, ops, settings).cache;
            |cache| <= Limit(settings) && Ordered(cache)
  {
    RunSound(start, ops, settings);
  }

  ghost predicate LookedRecently(log: seq<Event>, k: nat, tenant: string, subject: string, user: Option<string>, at: int,
                                 now: int, settings: Settings)
  {
    LastLooked(log, k, tenant, subject, user, at) && now < at + settings.ttlMs
  }

  /** The answer is what the table says now, asked because nothing valid was cached, or what it last said recently. */
  ghost predicate Agrees(h: History, tenant: string, subject: string, row: Option<string>, now: int, settings: Settings,
                         answer: Option<string>)
  {
    || (Hit(h.cache, CacheKey(tenant, subject), now).None? && answer == row)
    || exists k: nat, at: int :: LookedRecently(h.log, k, tenant, subject, answer, at, now, settings)
  }

  /** Every answer is the table's: asked now, or last asked for this very pair less than the ttl ago and not dropped since. */
  lemma {:induction false} AnswersAgreeWithTable(start: int, ops: seq<Op>, tenant: string, subject: string, row: Option<string>, now: int, settings: Settings)
    requires ProperRun(start, ops, settings) && Run(start, ops, settings).clock <= now && !HasNul(tenant) && subject != ""
    ensures var h := Run(start, ops, settings);
            Agrees(h, tenant, subject, row, now, settings, ResolveStep(h.cache, tenant, subject, row, now, settings).1)
  {
    RunSound(start, ops, settings);
    hide Run, ProperRun, Shaped;
    var h := Run(start, ops, settings);
    var key := CacheKey(tenant, subject);
    if Hit(h.cache, key, now).Some? {
      var i := Find(h.cache, key).value;
      var slot := h.cache[i];
      assert SlotExplained(h.log, slot, settings);
      PairOfSlot(h.log, slot, tenant, subject, settings);
      var k: nat, at: int :| LastLooked(h.log, k, tenant, subject, slot.user, at) && at == slot.expiresAt - settings.ttlMs;
      assert LookedRecently(h.log, k, tenant, subject, slot.user, at, now, settings);
    }
  }

  lemma PairOfSlot(log: seq<Event>, slot: Slot, tenant: string, subject: string, settings: Settings)
    requires SlotExplained(log, slot, settings) && !HasNul(tenant) && slot.key == CacheKey(tenant, subject)
    ensures exists k: nat, at: int :: LastLooked(log, k, tenant, subject, slot.user, at) && at == slot.expiresAt - settings.ttlMs
  {
    var t, s, k: nat :| ExplainedBy(log, slot, t, s, k, settings);
    CacheKeyInjective(t, s, tenant, subject);
    assert LastLooked(log, k, tenant, subject, slot.user, slot.expiresAt - settings.ttlMs);
  }
}
