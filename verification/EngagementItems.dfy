/** Work items of an engagement: their order, their completion dates and their external keys. */
module EngagementItems {
  import opened Options

  datatype ItemStatus = Planned | InProgress | Done | Blocked | AwaitingClient

  datatype Item = Item(
    id: string,
    engagementId: string,
    title: string,
    status: ItemStatus,
    completedAt: Option<int>,
    artifactId: Option<string>,
    externalKey: Option<string>,
    sortOrder: int,
    createdAt: int,
    updatedAt: int)

  datatype Input = Input(
    title: string,
    status: Option<ItemStatus>,
    completedAt: Option<int>,
    artifactId: Option<string>,
    externalKey: Option<string>,
    sortOrder: Option<int>)

  /** An artifact or a key may be left alone, set, or taken away. */
  datatype Patch = Patch(
    title: Option<string>,
    status: Option<ItemStatus>,
    completedAt: Option<int>,
    artifactId: Option<Option<string>>,
    externalKey: Option<Option<string>>,
    sortOrder: Option<int>)

  datatype Error = NotFound | ForeignArtifact | KeyTaken | NotEveryItemOnce

  function CompletedAtFor(status: ItemStatus, requested: Option<int>, current: Option<int>, now: int): Option<int> {
    if status != Done then None
    else if requested.Some? then requested
    else if current.Some? then current
    else Some(now)
  }

  // ---- The staff order -------------------------------------------------------------------

  predicate Before(a: Item, b: Item) {
    a.sortOrder < b.sortOrder || (a.sortOrder == b.sortOrder && a.createdAt <= b.createdAt)
  }

  function Insert(x: Item, s: seq<Item>): seq<Item> {
    if s == [] || Before(x, s[0]) then [x] + s else [s[0]] + Insert(x, s[1..])
  }

  /** The engagement's items by sort order, then age. */
  function Listed(items: seq<Item>, engagementId: string): seq<Item> {
    if items == [] then []
    else
      var rest := Listed(items[1..], engagementId);
      if items[0].engagementId == engagementId then Insert(items[0], rest) else rest
  }

  ghost predicate InOrder(s: seq<Item>) {
    forall i, j | 0 <= i < j < |s| ::
      s[i].sortOrder < s[j].sortOrder || (s[i].sortOrder == s[j].sortOrder && s[i].createdAt <= s[j].createdAt)
  }

  lemma {:induction false} InsertMembers(x: Item, s: seq<Item>)
    ensures multiset(Insert(x, s)) == multiset(s) + multiset{x}
    decreases |s|
  {
    if s != [] && !Before(x, s[0]) {
      InsertMembers(x, s[1..]);
      assert s == [s[0]] + s[1..];
    }
  }

  lemma ConsInOrder(x: Item, s: seq<Item>)
    requires InOrder(s) && forall y | y in s :: Before(x, y)
    ensures InOrder([x] + s)
  {
    var all := [x] + s;
    forall i, j | 0 <= i < j < |all| ensures Before(all[i], all[j]) {
      assert all[j] == s[j - 1] && s[j - 1] in s;
    }
  }

  lemma HeadIsFirst(s: seq<Item>)
    requires InOrder(s) && s != []
    ensures InOrder(s[1..]) && forall y | y in s[1..] :: Before(s[0], y)
  {
  }

  lemma {:induction false} InsertKeeps(x: Item, s: seq<Item>)
    requires InOrder(s)
    ensures InOrder(Insert(x, s)) && multiset(Insert(x, s)) == multiset(s) + multiset{x}
    decreases |s|
  {
    InsertMembers(x, s);
    if s == [] {
    } else if Before(x, s[0]) {
      HeadIsFirst(s);
      assert s == [s[0]] + s[1..];
      hide InOrder;
      ConsInOrder(x, s);
    } else {
      HeadIsFirst(s);
      InsertMembers(x, s[1..]);
      InsertKeeps(x, s[1..]);
      var rest := Insert(x, s[1..]);
      assert Insert(x, s) == [s[0]] + rest;
      hide InOrder, Insert;
      forall y | y in rest ensures Before(s[0], y) {
        assert y in multiset(rest);
      }
      ConsInOrder(s[0], rest);
    }
  }

  function Of(items: seq<Item>, engagementId: string): seq<Item> {
    if items == [] then []
    else (if items[0].engagementId == engagementId then [items[0]] else []) + Of(items[1..], engagementId)
  }

  lemma {:induction false} ListedIsSorted(items: seq<Item>, engagementId: string)
    ensures InOrder(Listed(items, engagementId))
    ensures multiset(Listed(items, engagementId)) == multiset(Of(items, engagementId))
    decreases |items|
  {
    if items != [] {
      ListedIsSorted(items[1..], engagementId);
      if items[0].engagementId == engagementId {
        InsertKeeps(items[0], Listed(items[1..], engagementId));
      }
    }
  }

  lemma {:induction false} OfMembers(items: seq<Item>, engagementId: string, item: Item)
    ensures item in Of(items, engagementId) <==> item in items && item.engagementId == engagementId
    decreases |items|
  {
    if items != [] {
      OfMembers(items[1..], engagementId, item);
      assert items == [items[0]] + items[1..];
    }
  }

  lemma ListedMembers(items: seq<Item>, engagementId: string, item: Item)
    ensures item in Listed(items, engagementId) <==> item in items && item.engagementId == engagementId
  {
    ListedIsSorted(items, engagementId);
    OfMembers(items, engagementId, item);
    assert item in Listed(items, engagementId) <==> item in multiset(Listed(items, engagementId));
    assert item in Of(items, engagementId) <==> item in multiset(Of(items, engagementId));
  }

  function Ids(items: seq<Item>): seq<string> {
    seq(|items|, i requires 0 <= i < |items| => items[i].id)
  }

  ghost predicate NoRepeats(ids: seq<string>) {
    forall i, j | 0 <= i < j < |ids| :: ids[i] != ids[j]
  }

  lemma ConsOnce(x: string, ids: seq<string>)
    ensures NoRepeats([x] + ids) <==> NoRepeats(ids) && x !in ids
  {
    var all := [x] + ids;
    assert forall k: nat | k < |ids| :: all[k + 1] == ids[k];
    if NoRepeats(all) {
      assert forall i: nat, j: nat | i < j < |ids| :: all[i + 1] != all[j + 1] && ids[i] != ids[j];
      assert forall k: nat | k < |ids| :: all[0] != all[k + 1] && ids[k] != x;
    }
  }

  lemma IdsCons(x: Item, s: seq<Item>)
    ensures Ids([x] + s) == [x.id] + Ids(s)
    ensures forall id :: id in Ids(s) <==> exists k | 0 <= k < |s| :: s[k].id == id
  {
    forall k | 0 <= k < |s| ensures s[k].id in Ids(s) {
      assert Ids(s)[k] == s[k].id;
    }
  }

  lemma {:induction false} ListedIdsOnce(items: seq<Item>, engagementId: string)
    requires NoRepeats(Ids(items))
    ensures NoRepeats(Ids(Listed(items, engagementId)))
    ensures forall id | id in Ids(Listed(items, engagementId)) :: id in Ids(items)
    decreases |items|
  {
    if items != [] {
      assert items == [items[0]] + items[1..];
      IdsCons(items[0], items[1..]);
      ConsOnce(items[0].id, Ids(items[1..]));
      ListedIdsOnce(items[1..], engagementId);
      var rest := Listed(items[1..], engagementId);
      if items[0].engagementId == engagementId {
        InsertIdsOnce(items[0], rest);
      }
    }
  }

  lemma {:induction false} InsertIdsOnce(x: Item, s: seq<Item>)
    requires NoRepeats(Ids(s)) && x.id !in Ids(s)
    ensures NoRepeats(Ids(Insert(x, s)))
    ensures forall id :: id in Ids(Insert(x, s)) <==> id == x.id || id in Ids(s)
    decreases |s|
  {
    hide NoRepeats;
    if s == [] || Before(x, s[0]) {
      IdsCons(x, s);
      ConsOnce(x.id, Ids(s));
    } else {
      assert s == [s[0]] + s[1..];
      IdsCons(s[0], s[1..]);
      ConsOnce(s[0].id, Ids(s[1..]));
      InsertIdsOnce(x, s[1..]);
      IdsCons(s[0], Insert(x, s[1..]));
      ConsOnce(s[0].id, Ids(Insert(x, s[1..])));
    }
  }

  // ---- Reordering -------------------------------------------------------------------------

  function Elements(ids: seq<string>): set<string> {
    set id | id in ids
  }

  lemma {:induction false} SizeOfElements(ids: seq<string>)
    ensures |Elements(ids)| <= |ids|
    ensures |Elements(ids)| == |ids| <==> NoRepeats(ids)
    decreases |ids|
  {
    if ids != [] {
      var last := ids[|ids| - 1];
      var front := ids[..|ids| - 1];
      SizeOfElements(front);
      assert ids == front + [last];
      assert Elements(ids) == Elements(front) + {last};
      if last in front {
        assert Elements(ids) == Elements(front);
        var i :| 0 <= i < |front| && front[i] == last;
        assert ids[i] == ids[|ids| - 1];
      } else {
        assert NoRepeats(ids) <==> NoRepeats(front);
      }
    }
  }

  /** The check compares sizes and looks for strangers; it accepts exactly the permutations of the items. */
  lemma SizesDecide(requested: seq<string>, known: seq<string>)
    requires NoRepeats(known)
    ensures (|Elements(requested)| == |requested| && |Elements(requested)| == |Elements(known)|
             && forall id | id in requested :: id in Elements(known))
        <==> (NoRepeats(requested) && Elements(requested) == Elements(known))
    ensures NoRepeats(requested) && Elements(requested) == Elements(known) ==> |requested| == |known|
  {
    SizeOfElements(requested);
    SizeOfElements(known);
    if Elements(requested) <= Elements(known) && |Elements(requested)| == |Elements(known)| {
      SubsetOfSize(Elements(requested), Elements(known));
    }
  }

  lemma SubsetOfSize(a: set<string>, b: set<string>)
    requires a <= b && |a| == |b|
    ensures a == b
  {
    assert b == a + (b - a);
  }

  function Position(ids: seq<string>, id: string): nat
    requires id in ids
    ensures Position(ids, id) < |ids| && ids[Position(ids, id)] == id
  {
    if ids[0] == id then 0 else 1 + Position(ids[1..], id)
  }

  function Positioned(item: Item, engagementId: string, ids: seq<string>, now: int): Item {
    if item.engagementId == engagementId && item.id in ids
    then item.(sortOrder := Position(ids, item.id), updatedAt := now)
    else item
  }

  function Reordered(items: seq<Item>, engagementId: string, ids: seq<string>, now: int): seq<Item> {
    seq(|items|, i requires 0 <= i < |items| => Positioned(items[i], engagementId, ids, now))
  }

  /** One UPDATE of the loop. */
  function SetOrder(items: seq<Item>, engagementId: string, id: string, index: nat, now: int): seq<Item> {
    seq(|items|, i requires 0 <= i < |items| =>
      if items[i].id == id && items[i].engagementId == engagementId
      then items[i].(sortOrder := index, updatedAt := now) else items[i])
  }

  lemma {:induction false} PositionSnoc(ids: seq<string>, id: string, x: string)
    requires x in ids
    ensures x in ids + [id] && Position(ids + [id], x) == Position(ids, x)
    decreases |ids|
  {
    if ids[0] != x {
      PositionSnoc(ids[1..], id, x);
      assert (ids + [id])[1..] == ids[1..] + [id];
    }
  }

  lemma {:induction false} PositionNew(ids: seq<string>, id: string)
    requires id !in ids
    ensures id in ids + [id] && Position(ids + [id], id) == |ids|
    decreases |ids|
  {
    assert (ids + [id])[|ids|] == id;
    if ids != [] {
      PositionNew(ids[1..], id);
      assert (ids + [id])[1..] == ids[1..] + [id];
    }
  }

  lemma SetOrderStep(items: seq<Item>, engagementId: string, ids: seq<string>, id: string, now: int)
    requires id !in ids
    ensures SetOrder(Reordered(items, engagementId, ids, now), engagementId, id, |ids|, now)
         == Reordered(items, engagementId, ids + [id], now)
  {
    PositionNew(ids, id);
    forall i | 0 <= i < |items|
      ensures SetOrder(Reordered(items, engagementId, ids, now), engagementId, id, |ids|, now)[i]
           == Reordered(items, engagementId, ids + [id], now)[i]
    {
      if items[i].id in ids { PositionSnoc(ids, id, items[i].id); }
    }
  }

  /** Strictly rising numbers below their count are their own places. */
  lemma {:induction false} PlacesAreForced(s: seq<int>, k: nat)
    requires forall i, j | 0 <= i < j < |s| :: s[i] < s[j]
    requires forall i | 0 <= i < |s| :: 0 <= s[i] < |s|
    requires k < |s|
    ensures s[k] == k
  {
    AtLeastPlace(s, k);
    AtMostPlace(s, k);
  }

  lemma {:induction false} AtLeastPlace(s: seq<int>, k: nat)
    requires forall i, j | 0 <= i < j < |s| :: s[i] < s[j]
    requires k < |s| && s[0] >= 0
    ensures s[k] >= k
  {
    if k > 0 { AtLeastPlace(s, k - 1); }
  }

  lemma {:induction false} AtMostPlace(s: seq<int>, k: nat)
    requires forall i, j | 0 <= i < j < |s| :: s[i] < s[j]
    requires forall i | 0 <= i < |s| :: s[i] < |s|
    requires k < |s|
    ensures s[k] <= k
    decreases |s| - k
  {
    if k < |s| - 1 { AtMostPlace(s, k + 1); }
  }

  /** A reorder gives each of the items its place in the request and the time; all else stays. */
  lemma ReorderedExactly(items: seq<Item>, engagementId: string, ids: seq<string>, now: int, i: nat)
    requires i < |items|
    ensures |Reordered(items, engagementId, ids, now)| == |items|
    ensures var (before, after) := (items[i], Reordered(items, engagementId, ids, now)[i]);
            if before.engagementId == engagementId && before.id in ids
            then after == before.(sortOrder := after.sortOrder, updatedAt := now) && 0 <= after.sortOrder < |ids| && ids[after.sortOrder] == before.id
            else after == before
  {
  }

  lemma ReorderedIds(items: seq<Item>, engagementId: string, ids: seq<string>, now: int)
    ensures Ids(Reordered(items, engagementId, ids, now)) == Ids(items)
  {
  }

  /** What a row of the new listing is: an item of the engagement, numbered by its place in the request. */
  lemma ListedRow(items: seq<Item>, engagementId: string, ids: seq<string>, now: int, row: Item)
    requires forall item | item in items && item.engagementId == engagementId :: item.id in ids
    requires row in Listed(Reordered(items, engagementId, ids, now), engagementId)
    ensures row.id in ids && row.sortOrder == Position(ids, row.id)
  {
    var after := Reordered(items, engagementId, ids, now);
    ListedMembers(after, engagementId, row);
    var i :| 0 <= i < |after| && after[i] == row;
    assert items[i] in items;
  }

  /** The listing after a reorder is the requested order. */
  lemma ReorderShows(items: seq<Item>, engagementId: string, ids: seq<string>, now: int)
    requires NoRepeats(Ids(items)) && NoRepeats(ids)
    requires Elements(ids) == Elements(Ids(Listed(items, engagementId)))
    ensures Ids(Listed(Reordered(items, engagementId, ids, now), engagementId)) == ids
  {
    var after := Reordered(items, engagementId, ids, now);
    var rows := Listed(after, engagementId);
    ReorderedIds(items, engagementId, ids, now);
    ListedIdsOnce(after, engagementId);
    ListedIsSorted(after, engagementId);
    RequestCovers(items, engagementId, ids);
    hide Listed, Reordered, Position;
    forall row | row in rows ensures row.id in ids && row.sortOrder == Position(ids, row.id) {
      ListedRow(items, engagementId, ids, now, row);
    }
    SameLength(items, engagementId, ids, now);
    var places := seq(|rows|, i requires 0 <= i < |rows| => rows[i].sortOrder);
    forall i, j | 0 <= i < j < |rows| ensures places[i] < places[j] {
      assert rows[i] in rows && rows[j] in rows;
      assert Ids(rows)[i] != Ids(rows)[j];
    }
    forall i | 0 <= i < |rows| ensures 0 <= places[i] < |rows| {
      assert rows[i] in rows;
    }
    forall k | 0 <= k < |rows| ensures Ids(rows)[k] == ids[k] {
      PlacesAreForced(places, k);
      assert rows[k] in rows;
    }
  }

  lemma RequestCovers(items: seq<Item>, engagementId: string, ids: seq<string>)
    requires Elements(ids) == Elements(Ids(Listed(items, engagementId)))
    ensures forall item | item in items && item.engagementId == engagementId :: item.id in ids
  {
    forall item | item in items && item.engagementId == engagementId ensures item.id in ids {
      ListedMembers(items, engagementId, item);
      var i :| 0 <= i < |Listed(items, engagementId)| && Listed(items, engagementId)[i] == item;
      assert Ids(Listed(items, engagementId))[i] == item.id;
      assert item.id in Elements(ids);
    }
  }

  lemma {:induction false} ListedLength(items: seq<Item>, other: seq<Item>, engagementId: string)
    requires |items| == |other| && forall i | 0 <= i < |items| :: items[i].engagementId == other[i].engagementId
    ensures |Listed(items, engagementId)| == |Listed(other, engagementId)|
    decreases |items|
  {
    if items != [] {
      ListedLength(items[1..], other[1..], engagementId);
      InsertLength(items[0], Listed(items[1..], engagementId));
      InsertLength(other[0], Listed(other[1..], engagementId));
    }
  }

  lemma {:induction false} InsertLength(x: Item, s: seq<Item>)
    ensures |Insert(x, s)| == |s| + 1
    decreases |s|
  {
    if s != [] && !Before(x, s[0]) { InsertLength(x, s[1..]); }
  }

  lemma SameLength(items: seq<Item>, engagementId: string, ids: seq<string>, now: int)
    requires NoRepeats(Ids(items)) && NoRepeats(ids)
    requires Elements(ids) == Elements(Ids(Listed(items, engagementId)))
    ensures |Listed(Reordered(items, engagementId, ids, now), engagementId)| == |ids|
  {
    ListedLength(items, Reordered(items, engagementId, ids, now), engagementId);
    ListedIdsOnce(items, engagementId);
    SizeOfElements(ids);
    SizeOfElements(Ids(Listed(items, engagementId)));
  }

  // ---- New items ----------------------------------------------------------------------------

  function NextSortOrder(items: seq<Item>, engagementId: string): int {
    if Of(items, engagementId) == [] then 0 else MaxOrder(Of(items, engagementId)) + 1
  }

  function MaxOrder(items: seq<Item>): int
    requires items != []
  {
    if |items| == 1 then items[0].sortOrder
    else if items[0].sortOrder >= MaxOrder(items[1..]) then items[0].sortOrder
    else MaxOrder(items[1..])
  }

  lemma {:induction false} MaxOrderBounds(items: seq<Item>, item: Item)
    requires item in items
    ensures item.sortOrder <= MaxOrder(items)
    decreases |items|
  {
    if item != items[0] {
      MaxOrderBounds(items[1..], item);
    }
  }

  lemma {:induction false} MaxOrderReached(items: seq<Item>)
    requires items != []
    ensures exists item | item in items :: item.sortOrder == MaxOrder(items)
    decreases |items|
  {
    assert items[0] in items;
    if |items| > 1 && items[0].sortOrder < MaxOrder(items[1..]) {
      MaxOrderReached(items[1..]);
      var item :| item in items[1..] && item.sortOrder == MaxOrder(items[1..]);
      assert item in items;
    }
  }

  /** The next place is one after the last that is taken, or zero in an empty list. */
  lemma NextPlace(items: seq<Item>, engagementId: string)
    ensures var next := NextSortOrder(items, engagementId);
            && (forall item | item in items && item.engagementId == engagementId :: item.sortOrder < next)
            && if exists item | item in items :: item.engagementId == engagementId
               then exists item | item in items && item.engagementId == engagementId :: item.sortOrder == next - 1
               else next == 0
  {
    var own := Of(items, engagementId);
    forall item ensures item in own <==> item in items && item.engagementId == engagementId {
      OfMembers(items, engagementId, item);
    }
    if own == [] {
      forall item | item in items ensures item.engagementId != engagementId {
        assert item !in own;
      }
    } else {
      assert own[0] in own;
      MaxOrderReached(own);
      forall item | item in own ensures item.sortOrder <= MaxOrder(own) { MaxOrderBounds(own, item); }
    }
    hide Of, MaxOrder;
  }

  lemma {:induction false} InsertBeforeLast(x: Item, s: seq<Item>, last: Item)
    requires Before(x, last)
    ensures Insert(x, s + [last]) == Insert(x, s) + [last]
    decreases |s|
  {
    if s != [] && !Before(x, s[0]) {
      InsertBeforeLast(x, s[1..], last);
      assert (s + [last])[1..] == s[1..] + [last];
    }
  }

  lemma {:induction false} ListedSnoc(items: seq<Item>, last: Item)
    requires forall item | item in items && item.engagementId == last.engagementId :: Before(item, last)
    ensures Listed(items + [last], last.engagementId) == Listed(items, last.engagementId) + [last]
    decreases |items|
  {
    if items == [] {
      assert [last][1..] == [];
    } else {
      assert (items + [last])[1..] == items[1..] + [last];
      ListedSnoc(items[1..], last);
      if items[0].engagementId == last.engagementId {
        InsertBeforeLast(items[0], Listed(items[1..], last.engagementId), last);
      }
    }
  }

  /** An item created without a place goes to the end of the list. */
  lemma CreatedGoesLast(items: seq<Item>, row: Item)
    requires row.sortOrder == NextSortOrder(items, row.engagementId)
    ensures Listed(items + [row], row.engagementId) == Listed(items, row.engagementId) + [row]
  {
    forall item | item in items && item.engagementId == row.engagementId ensures Before(item, row) {
      OfMembers(items, row.engagementId, item);
      MaxOrderBounds(Of(items, row.engagementId), item);
    }
    ListedSnoc(items, row);
  }

  // ---- The service ----------------------------------------------------------------------------

  predicate SameKey(a: Item, b: Item) {
    a.engagementId == b.engagementId && a.externalKey.Some? && a.externalKey == b.externalKey
  }

  /** No artifact, or one of the engagement's; `artifacts` gives each artifact's engagement. */
  predicate ArtifactOf(artifacts: map<string, string>, engagementId: string, artifactId: Option<string>) {
    artifactId.GetOr("") == "" || (artifactId.value in artifacts && artifacts[artifactId.value] == engagementId)
  }

  /** Every item's artifact is one of its own engagement. */
  ghost predicate ArtifactsKept(items: seq<Item>, artifacts: map<string, string>) {
    forall i | 0 <= i < |items| :: ArtifactOf(artifacts, items[i].engagementId, items[i].artifactId)
  }

  /** Done items are dated and no others; ids and keyed items are unique. */
  ghost predicate Kept(items: seq<Item>) {
    && NoRepeats(Ids(items))
    && (forall i | 0 <= i < |items| :: items[i].status == Done <==> items[i].completedAt.Some?)
    && (forall i, j | 0 <= i < j < |items| :: !SameKey(items[i], items[j]))
  }

  lemma KeptSnoc(items: seq<Item>, row: Item)
    requires Kept(items) && row.id !in Ids(items) && (row.status == Done <==> row.completedAt.Some?)
    requires forall i | 0 <= i < |items| :: !SameKey(items[i], row)
    ensures Kept(items + [row])
  {
    var all := items + [row];
    forall i, j | 0 <= i < j < |Ids(all)| ensures Ids(all)[i] != Ids(all)[j] {
      assert Ids(all)[i] == Ids(items)[i] && Ids(items)[i] in Ids(items);
      if j < |items| { assert Ids(all)[j] == Ids(items)[j]; }
    }
  }

  lemma KeptUpdate(items: seq<Item>, k: nat, row: Item)
    requires Kept(items) && k < |items| && row.id == items[k].id && (row.status == Done <==> row.completedAt.Some?)
    requires forall i | 0 <= i < |items| && i != k :: !SameKey(items[i], row)
    ensures Kept(items[k := row])
  {
    assert Ids(items[k := row]) == Ids(items);
  }

  lemma KeptReordered(items: seq<Item>, engagementId: string, ids: seq<string>, now: int)
    requires Kept(items)
    ensures Kept(Reordered(items, engagementId, ids, now))
  {
    ReorderedIds(items, engagementId, ids, now);
  }

  lemma ArtifactsReordered(items: seq<Item>, artifacts: map<string, string>, engagementId: string, ids: seq<string>, now: int)
    requires ArtifactsKept(items, artifacts)
    ensures ArtifactsKept(Reordered(items, engagementId, ids, now), artifacts)
  {
    hide ArtifactOf;
  }

  function Find(items: seq<Item>, id: string): Option<nat>
    ensures Find(items, id).Some? ==> Find(items, id).value < |items| && items[Find(items, id).value].id == id
    ensures Find(items, id).None? ==> forall i | 0 <= i < |items| :: items[i].id != id
  {
    if items == [] then None
    else if items[0].id == id then Some(0)
    else
      var rest := Find(items[1..], id);
      assert forall i | 0 < i < |items| :: items[i] == items[1..][i - 1];
      if rest.None? then None else Some(rest.value + 1)
  }

  function Patched(item: Item, patch: Patch, now: int): Item {
    var status := patch.status.GetOr(item.status);
    item.(title := patch.title.GetOr(item.title),
          status := status,
          completedAt := CompletedAtFor(status, patch.completedAt, item.completedAt, now),
          artifactId := patch.artifactId.GetOr(item.artifactId),
          externalKey := patch.externalKey.GetOr(item.externalKey),
          sortOrder := patch.sortOrder.GetOr(item.sortOrder),
          updatedAt := now)
  }

  function Or<T>(patched: Option<T>, current: T): T {
    if patched.Some? then patched.value else current
  }

  /** A patch sets what it names; an item that is done keeps its date unless given another, and has none otherwise. */
  lemma PatchedExactly(item: Item, patch: Patch, now: int)
    ensures var row := Patched(item, patch, now);
            && row.id == item.id && row.engagementId == item.engagementId && row.createdAt == item.createdAt && row.updatedAt == now
            && row.title == Or(patch.title, item.title) && row.status == Or(patch.status, item.status)
            && row.artifactId == Or(patch.artifactId, item.artifactId) && row.externalKey == Or(patch.externalKey, item.externalKey)
            && row.sortOrder == Or(patch.sortOrder, item.sortOrder)
            && Dated(row, patch.completedAt, item.completedAt, now)
  {
  }

  /** The date an item was done: the one given, the one it had, or now. */
  predicate Dated(row: Item, given: Option<int>, had: Option<int>, now: int) {
    if row.status != Done then row.completedAt == None
    else if given != None then row.completedAt == given
    else if had != None then row.completedAt == had
    else row.completedAt == Some(now)
  }

  class Service {
    /** Engagements that are not deleted. */
    var engagements: set<string>
    /** The engagement of each artifact. */
    var artifacts: map<string, string>
    var items: seq<Item>

    constructor (engagements: set<string>, artifacts: map<string, string>)
      ensures items == [] && this.engagements == engagements && this.artifacts == artifacts && Valid()
    {
      this.engagements, this.artifacts := engagements, artifacts;
      items := [];
    }

    ghost predicate Valid()
      reads this
    {
      Kept(items) && ArtifactsKept(items, artifacts)
    }

    /** `id` is freshly generated. */
    method Create(id: string, engagementId: string, input: Input, now: int) returns (r: Result<Item, Error>)
      requires Valid() && id !in Ids(items)
      modifies this`items
      ensures Valid()
      ensures r.Err? ==> items == old(items)
      ensures r == Err(NotFound) <==> engagementId !in engagements
      ensures r == Err(ForeignArtifact) <==> engagementId in engagements && !ArtifactOf(artifacts, engagementId, input.artifactId)
      ensures r.Ok? && input.artifactId.Some? && input.artifactId.value != "" ==>
                input.artifactId.value in artifacts && artifacts[input.artifactId.value] == engagementId
      ensures input.artifactId.Some? && input.artifactId.value in artifacts && artifacts[input.artifactId.value] == engagementId ==> r != Err(ForeignArtifact)
      ensures input.artifactId.GetOr("") == "" ==> r != Err(ForeignArtifact)
      ensures r == Err(KeyTaken) <==>
        (engagementId in engagements && ArtifactOf(artifacts, engagementId, input.artifactId) && input.externalKey.Some?
         && exists i | 0 <= i < |old(items)| ::
              old(items)[i].engagementId == engagementId && old(items)[i].externalKey == input.externalKey)
      ensures r != Err(NotEveryItemOnce)
      ensures r.Ok? ==>
        var status := input.status.GetOr(Planned);
        && items == old(items) + [r.value]
        && r.value == Item(id, engagementId, input.title, status, CompletedAtFor(status, input.completedAt, None, now),
                           input.artifactId, input.externalKey,
                           input.sortOrder.GetOr(NextSortOrder(old(items), engagementId)), now, now)
        && Dated(r.value, input.completedAt, None, now)
        && (input.sortOrder.None? ==> Listed(items, engagementId) == Listed(old(items), engagementId) + [r.value])
    {
      if engagementId !in engagements {
        return Err(NotFound);
      }
      if !ArtifactOf(artifacts, engagementId, input.artifactId) {
        return Err(ForeignArtifact);
      }
      var status := input.status.GetOr(Planned);
      var sortOrder := input.sortOrder.GetOr(NextSortOrder(items, engagementId));
      var row := Item(id, engagementId, input.title, status, CompletedAtFor(status, input.completedAt, None, now),
                      input.artifactId, input.externalKey, sortOrder, now, now);
      if exists i | 0 <= i < |items| :: SameKey(items[i], row) {
        return Err(KeyTaken);
      }
      KeptSnoc(items, row);
      if input.sortOrder.None? {
        CreatedGoesLast(items, row);
      }
      hide Kept, Ids, Listed, NextSortOrder;
      items := items + [row];
      r := Ok(row);
    }

    method Update(id: string, patch: Patch, now: int) returns (r: Result<Item, Error>)
      requires Valid()
      modifies this`items
      ensures Valid()
      ensures r.Err? ==> items == old(items)
      ensures r == Err(NotFound) <==> Find(old(items), id).None?
      ensures Find(old(items), id).Some? ==>
        var k := Find(old(items), id).value; var row := Patched(old(items)[k], patch, now);
        if patch.artifactId.Some? && !ArtifactOf(artifacts, old(items)[k].engagementId, patch.artifactId.value) then r == Err(ForeignArtifact)
        else if exists i | 0 <= i < |old(items)| && i != k :: SameKey(old(items)[i], row) then r == Err(KeyTaken)
        else r == Ok(row) && items == old(items)[k := row] && Dated(row, patch.completedAt, old(items)[k].completedAt, now)
    {
      var found := Find(items, id);
      if found.None? {
        return Err(NotFound);
      }
      var existing := items[found.value];
      if patch.artifactId.Some? && !ArtifactOf(artifacts, existing.engagementId, patch.artifactId.value) {
        return Err(ForeignArtifact);
      }
      var row := Patched(existing, patch, now);
      if exists i | 0 <= i < |items| && i != found.value :: SameKey(items[i], row) {
        return Err(KeyTaken);
      }
      KeptUpdate(items, found.value, row);
      hide Kept, Find;
      items := items[found.value := row];
      r := Ok(row);
    }

    /** Accepts exactly the permutations of the engagement's items; then they list in that order, and
        nothing but their place and time stamp changes. */
    method Reorder(engagementId: string, orderedIds: seq<string>, now: int) returns (r: Result<seq<Item>, Error>)
      requires Valid()
      modifies this`items
      ensures Valid()
      ensures r.Ok? <==> NoRepeats(orderedIds) && Elements(orderedIds) == Elements(Ids(Listed(old(items), engagementId)))
      ensures r.Err? ==> r.error == NotEveryItemOnce && items == old(items)
      ensures r.Ok? ==> items == Reordered(old(items), engagementId, orderedIds, now)
      ensures r.Ok? ==> r.value == Listed(items, engagementId) && Ids(r.value) == orderedIds
    {
      var current := Listed(items, engagementId);
      var known := Elements(Ids(current));
      var requested := Elements(orderedIds);
      ListedIdsOnce(items, engagementId);
      SizesDecide(orderedIds, Ids(current));
      if |requested| != |orderedIds| || |requested| != |known| || exists id | id in orderedIds :: id !in known {
        return Err(NotEveryItemOnce);
      }
      ReorderShows(items, engagementId, orderedIds, now);
      KeptReordered(items, engagementId, orderedIds, now);
      ArtifactsReordered(items, artifacts, engagementId, orderedIds, now);
      hide Reordered, Listed, Ids, Elements, Kept, ArtifactsKept;
      PlaceAll(engagementId, orderedIds, now);
      r := Ok(Listed(items, engagementId));
    }

    /** The transaction: one update for each id in turn. */
    method PlaceAll(engagementId: string, orderedIds: seq<string>, now: int)
      requires NoRepeats(orderedIds)
      modifies this`items
      ensures items == Reordered(old(items), engagementId, orderedIds, now)
    {
      NothingPlaced(items, engagementId, now);
      hide Reordered, SetOrder;
      for index := 0 to |orderedIds|
        invariant items == Reordered(old(items), engagementId, orderedIds[..index], now)
      {
        assert orderedIds[..index + 1] == orderedIds[..index] + [orderedIds[index]];
        SetOrderStep(old(items), engagementId, orderedIds[..index], orderedIds[index], now);
        items := SetOrder(items, engagementId, orderedIds[index], index, now);
      }
      assert orderedIds[..|orderedIds|] == orderedIds;
    }
  }

  lemma NothingPlaced(items: seq<Item>, engagementId: string, now: int)
    ensures Reordered(items, engagementId, [], now) == items
  {
  }
}
