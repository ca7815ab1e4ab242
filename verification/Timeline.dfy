/** The staff timeline: three truncated feeds merged, sorted and truncated again. */
module Timeline {
  import opened Options

  datatype Kind = EventEntry | ActivityEntry | StageTransitionEntry

  datatype Entry = Entry(kind: Kind, id: string, createdAt: int)

  function Min(a: nat, b: nat): nat {
    if a < b then a else b
  }

  ghost predicate NewestFirst(s: seq<Entry>) {
    forall i, j | 0 <= i < j < |s| :: s[i].createdAt >= s[j].createdAt
  }

  /** `r` shows the newest entries of `all`, up to the limit, whatever the order among equal times. */
  ghost predicate ShowsNewest(r: seq<Entry>, all: multiset<Entry>, limit: nat) {
    && NewestFirst(r)
    && multiset(r) <= all
    && |r| == Min(limit, |all|)
    && forall x: Entry, y: Entry | x in multiset(r) && y in all - multiset(r) :: y.createdAt <= x.createdAt
  }

  function Insert(e: Entry, s: seq<Entry>): (r: seq<Entry>)
    ensures multiset(r) == multiset(s) + multiset{e}
  {
    if s == [] || e.createdAt > s[0].createdAt then [e] + s
    else
      assert s == [s[0]] + s[1..];
      [s[0]] + Insert(e, s[1..])
  }

  lemma {:induction false} InsertSorted(e: Entry, s: seq<Entry>)
    requires NewestFirst(s)
    ensures NewestFirst(Insert(e, s))
    decreases |s|
  {
    if s != [] && e.createdAt <= s[0].createdAt {
      InsertSorted(e, s[1..]);
      var rest := Insert(e, s[1..]);
      forall j | 0 <= j < |rest| ensures s[0].createdAt >= rest[j].createdAt {
        assert rest[j] in multiset(rest);
        assert rest[j] == e || rest[j] in s[1..];
      }
    }
  }

  /** Newest first; entries of one time keep their order. */
  method SortNewestFirst(entries: seq<Entry>) returns (sorted: seq<Entry>)
    ensures NewestFirst(sorted) && multiset(sorted) == multiset(entries)
  {
    sorted := [];
    for i := 0 to |entries|
      invariant NewestFirst(sorted) && multiset(sorted) == multiset(entries[..i])
    {
      InsertSorted(entries[i], sorted);
      assert entries[..i + 1] == entries[..i] + [entries[i]];
      sorted := Insert(entries[i], sorted);
    }
    assert entries[..|entries|] == entries;
  }

  // ---- Cutting early is harmless -----------------------------------------------------

  lemma SubMultisetSize(a: multiset<Entry>, b: multiset<Entry>)
    requires a <= b
    ensures |a| <= |b|
  {
    assert b == a + (b - a);
  }

  /** Entries that are all newer than position `p` of a sorted list stand before it. */
  lemma NewerStandBefore(feed: multiset<Entry>, m: seq<Entry>, p: nat)
    requires NewestFirst(m) && p < |m| && feed <= multiset(m)
    requires forall e | e in feed :: e.createdAt > m[p].createdAt
    ensures |feed| <= p
  {
    assert m == m[..p] + m[p..];
    forall e ensures feed[e] <= multiset(m[..p])[e] {
      if e in feed {
        assert e !in m[p..];
      }
    }
    SubMultisetSize(feed, multiset(m[..p]));
  }

  /** What a feed left out is no newer than anything the merged cut shows. */
  lemma LeftOutOfFeed(feed: seq<Entry>, all: multiset<Entry>, limit: nat, m: seq<Entry>, p: nat, y: Entry)
    requires ShowsNewest(feed, all, limit) && y in all - multiset(feed)
    requires NewestFirst(m) && multiset(feed) <= multiset(m)
    requires p < |m| && p < limit
    ensures y.createdAt <= m[p].createdAt
  {
    FullWhenLeavingOut(feed, all, limit, y);
    if y.createdAt > m[p].createdAt {
      forall e | e in multiset(feed) ensures e.createdAt > m[p].createdAt {
        assert y.createdAt <= e.createdAt;
      }
      NewerStandBefore(multiset(feed), m, p);
      assert false;
    }
  }

  lemma FullWhenLeavingOut(feed: seq<Entry>, all: multiset<Entry>, limit: nat, y: Entry)
    requires ShowsNewest(feed, all, limit) && y in all - multiset(feed)
    ensures |feed| == limit
  {
    assert all == multiset(feed) + (all - multiset(feed));
    assert multiset{y} <= all - multiset(feed);
    SubMultisetSize(multiset{y}, all - multiset(feed));
  }

  lemma FullOrComplete(feed: seq<Entry>, all: multiset<Entry>, limit: nat)
    requires ShowsNewest(feed, all, limit)
    ensures |feed| == limit || multiset(feed) == all
  {
    assert all == multiset(feed) + (all - multiset(feed));
    if |feed| != limit {
      assert |all - multiset(feed)| == 0;
    }
  }

  lemma MergedSize(f: seq<Entry>, g: seq<Entry>, h: seq<Entry>, a: multiset<Entry>, b: multiset<Entry>, c: multiset<Entry>, limit: nat)
    requires ShowsNewest(f, a, limit) && ShowsNewest(g, b, limit) && ShowsNewest(h, c, limit)
    ensures Min(limit, |f| + |g| + |h|) == Min(limit, |a + b + c|)
  {
    FullOrComplete(f, a, limit);
    FullOrComplete(g, b, limit);
    FullOrComplete(h, c, limit);
  }

  /** An entry the final cut leaves out was left out of a feed or stands after the cut. */
  lemma WhereLeftOut(f: seq<Entry>, g: seq<Entry>, h: seq<Entry>, a: multiset<Entry>, b: multiset<Entry>, c: multiset<Entry>,
                     m: seq<Entry>, k: nat, y: Entry)
    requires multiset(m) == multiset(f) + multiset(g) + multiset(h) && k <= |m|
    requires y in a + b + c - multiset(m[..k])
    ensures y in a - multiset(f) || y in b - multiset(g) || y in c - multiset(h) || y in m[k..]
  {
    assert m == m[..k] + m[k..];
    assert multiset(m)[y] == multiset(m[..k])[y] + multiset(m[k..])[y];
  }

  lemma CutIsShown(f: seq<Entry>, g: seq<Entry>, h: seq<Entry>, a: multiset<Entry>, b: multiset<Entry>, c: multiset<Entry>,
                   m: seq<Entry>, k: nat)
    requires multiset(f) <= a && multiset(g) <= b && multiset(h) <= c
    requires multiset(m) == multiset(f) + multiset(g) + multiset(h) && k <= |m|
    ensures multiset(m[..k]) <= a + b + c
    ensures |m| == |f| + |g| + |h|
  {
    assert m == m[..k] + m[k..];
    assert multiset(m[..k]) <= multiset(m);
    assert |multiset(m)| == |multiset(f) + multiset(g)| + |multiset(h)|;
    assert |multiset(f) + multiset(g)| == |multiset(f)| + |multiset(g)|;
  }

  lemma LeftOutIsOlder(f: seq<Entry>, g: seq<Entry>, h: seq<Entry>, a: multiset<Entry>, b: multiset<Entry>, c: multiset<Entry>,
                       limit: nat, m: seq<Entry>, k: nat, p: nat, y: Entry)
    requires ShowsNewest(f, a, limit) && ShowsNewest(g, b, limit) && ShowsNewest(h, c, limit)
    requires NewestFirst(m) && multiset(m) == multiset(f) + multiset(g) + multiset(h)
    requires p < k <= |m| && k <= limit
    requires y in a + b + c - multiset(m[..k])
    ensures y.createdAt <= m[p].createdAt
  {
    WhereLeftOut(f, g, h, a, b, c, m, k, y);
    hide ShowsNewest;
    if y in a - multiset(f) {
      LeftOutOfFeed(f, a, limit, m, p, y);
    } else if y in b - multiset(g) {
      LeftOutOfFeed(g, b, limit, m, p, y);
    } else if y in c - multiset(h) {
      LeftOutOfFeed(h, c, limit, m, p, y);
    } else {
      var q :| k <= q < |m| && m[q] == y;
    }
  }

  /** Merging three cut feeds and cutting again shows the newest of everything. */
  lemma CutMergeCut(f: seq<Entry>, g: seq<Entry>, h: seq<Entry>, a: multiset<Entry>, b: multiset<Entry>, c: multiset<Entry>,
                    limit: nat, m: seq<Entry>)
    requires ShowsNewest(f, a, limit) && ShowsNewest(g, b, limit) && ShowsNewest(h, c, limit)
    requires NewestFirst(m) && multiset(m) == multiset(f) + multiset(g) + multiset(h)
    ensures ShowsNewest(m[..Min(limit, |m|)], a + b + c, limit)
  {
    var k := Min(limit, |m|);
    var r := m[..k];
    var all := a + b + c;
    MergedSize(f, g, h, a, b, c, limit);
    CutIsShown(f, g, h, a, b, c, m, k);
    forall x: Entry, y: Entry | x in multiset(r) && y in all - multiset(r) ensures y.createdAt <= x.createdAt {
      var p :| 0 <= p < k && m[p] == x by { assert x in r; }
      LeftOutIsOlder(f, g, h, a, b, c, limit, m, k, p, y);
    }
  }

  /** The tables an engagement's timeline draws on; each query returns its newest rows. */
  datatype Engagement = Engagement(hasOpportunity: bool)

  method GetTimeline(engagement: Option<Engagement>, events: seq<Entry>, activities: seq<Entry>, transitions: seq<Entry>,
                     ghost allEvents: multiset<Entry>, ghost allActivities: multiset<Entry>,
                     ghost allTransitions: multiset<Entry>, limit: nat)
    returns (timeline: Option<seq<Entry>>)
    requires ShowsNewest(events, allEvents, limit)
    requires ShowsNewest(activities, allActivities, limit)
    requires ShowsNewest(transitions, allTransitions, limit)
    ensures timeline.None? <==> engagement.None?
    ensures timeline.Some? ==>
              ShowsNewest(timeline.value,
                          allEvents + allActivities + (if engagement.value.hasOpportunity then allTransitions else multiset{}), limit)
  {
    if engagement.None? {
      return None;
    }
    var transitionRows := if engagement.value.hasOpportunity then transitions else [];
    ghost var allRows := if engagement.value.hasOpportunity then allTransitions else multiset{};
    var merged := events + activities + transitionRows;
    var sorted := SortNewestFirst(merged);
    CutMergeCut(events, activities, transitionRows, allEvents, allActivities, allRows, limit, sorted);
    return Some(if limit <= |sorted| then sorted[..limit] else sorted[..|sorted|]);
  }
}
