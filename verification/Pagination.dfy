/** Cursor pagination over a table that may change between pages.

  Ids stand in a strict total order; integers carry it here.
 */
module Pagination {
  import opened Options

  datatype Row = Row(id: int, deleted: bool, owner: Option<string>)

  type Table = seq<Row>

  datatype Page = Page(items: seq<int>, nextCursor: Option<int>, hasMore: bool)

  /** The primary key. */
  ghost predicate UniqueIds(table: Table) {
    forall i, j | 0 <= i < j < |table| :: table[i].id != table[j].id
  }

  /** The query's conditions: not deleted, after the cursor, and the owner's when one is asked for. */
  predicate Matches(row: Row, cursor: Option<int>, owner: Option<string>) {
    !row.deleted && (cursor.Some? ==> row.id > cursor.value) && (owner.Some? ==> row.owner == owner)
  }

  function MatchingIds(table: Table, cursor: Option<int>, owner: Option<string>): seq<int> {
    if table == [] then []
    else (if Matches(table[0], cursor, owner) then [table[0].id] else []) + MatchingIds(table[1..], cursor, owner)
  }

  function InsertId(x: int, s: seq<int>): seq<int> {
    if s == [] || x <= s[0] then [x] + s else [s[0]] + InsertId(x, s[1..])
  }

  function SortIds(s: seq<int>): seq<int> {
    if s == [] then [] else InsertId(s[0], SortIds(s[1..]))
  }

  function Take(s: seq<int>, n: nat): seq<int> {
    if n < |s| then s[..n] else s
  }

  /** The rows the query returns: one more than the page holds, if there is one. */
  function FetchedIds(table: Table, cursor: Option<int>, limit: nat, owner: Option<string>): seq<int> {
    Take(SortIds(MatchingIds(table, cursor, owner)), limit + 1)
  }

  method List(table: Table, cursor: Option<int>, limit: nat, owner: Option<string>) returns (page: Page)
    ensures page == ListPage(table, cursor, limit, owner)
  {
    var rows := FetchedIds(table, cursor, limit, owner);
    var hasMore := |rows| > limit;
    var items := if hasMore then rows[..limit] else rows;
    var nextCursor := None;
    if hasMore && |items| > 0 {
      nextCursor := Some(items[|items| - 1]);
    }
    page := Page(items, nextCursor, hasMore);
  }

  function ListPage(table: Table, cursor: Option<int>, limit: nat, owner: Option<string>): Page {
    var rows := FetchedIds(table, cursor, limit, owner);
    var items := Take(rows, limit);
    Page(items, if |rows| > limit && items != [] then Some(items[|items| - 1]) else None, |rows| > limit)
  }

  // ---- The query ---------------------------------------------------------------------

  predicate Ascending(s: seq<int>) {
    forall i, j | 0 <= i < j < |s| :: s[i] < s[j]
  }

  ghost predicate SameElements(s: seq<int>, t: seq<int>) {
    forall x :: x in s <==> x in t
  }

  lemma {:induction false} InsertIdShape(x: int, s: seq<int>)
    requires Ascending(s) && x !in s
    ensures Ascending(InsertId(x, s)) && |InsertId(x, s)| == |s| + 1
    ensures forall y :: y in InsertId(x, s) <==> y == x || y in s
    decreases |s|
  {
    if s != [] && x > s[0] {
      InsertIdShape(x, s[1..]);
      var rest := InsertId(x, s[1..]);
      forall j | 0 <= j < |rest| ensures s[0] < rest[j] {
        assert rest[j] == x || rest[j] in s[1..];
      }
      assert s == [s[0]] + s[1..];
    }
  }

  /** The table holds the id in a row that meets the conditions. */
  ghost predicate Holds(table: Table, id: int, cursor: Option<int>, owner: Option<string>) {
    exists i | 0 <= i < |table| :: table[i].id == id && Matches(table[i], cursor, owner)
  }

  /** That is: a row that is not deleted, lies after the cursor if there is one, and is the owner's if one is asked for. */
  lemma HoldsExactly(table: Table, id: int, cursor: Option<int>, owner: Option<string>)
    ensures Holds(table, id, cursor, owner) <==>
              && (cursor == None || cursor.value < id)
              && exists row | row in table :: row.id == id && !row.deleted && (owner == None || row.owner == owner)
  {
    if row :| row in table && row.id == id && !row.deleted && (owner == None || row.owner == owner) {
      var i :| 0 <= i < |table| && table[i] == row;
      assert cursor == None || cursor.value < id ==> Matches(table[i], cursor, owner);
    }
  }

  lemma {:induction false} MatchingExact(table: Table, cursor: Option<int>, owner: Option<string>, id: int)
    ensures id in MatchingIds(table, cursor, owner) <==> Holds(table, id, cursor, owner)
  {
    if table != [] {
      MatchingExact(table[1..], cursor, owner, id);
      if Holds(table[1..], id, cursor, owner) {
        var i :| 0 <= i < |table[1..]| && table[1..][i].id == id && Matches(table[1..][i], cursor, owner);
        assert table[i + 1] == table[1..][i];
      }
      if Holds(table, id, cursor, owner) {
        var i :| 0 <= i < |table| && table[i].id == id && Matches(table[i], cursor, owner);
        if i > 0 { assert table[1..][i - 1] == table[i]; }
      }
    }
  }

  lemma {:induction false} SortedMatches(table: Table, cursor: Option<int>, owner: Option<string>)
    requires UniqueIds(table)
    ensures var s := SortIds(MatchingIds(table, cursor, owner));
            Ascending(s) && SameElements(s, MatchingIds(table, cursor, owner))
  {
    if table != [] {
      SortedMatches(table[1..], cursor, owner);
      var rest := MatchingIds(table[1..], cursor, owner);
      if Matches(table[0], cursor, owner) {
        var all := MatchingIds(table, cursor, owner);
        assert all == [table[0].id] + rest && all[1..] == rest;
        MatchingExact(table[1..], cursor, owner, table[0].id);
        InsertIdShape(table[0].id, SortIds(rest));
      } else {
        assert MatchingIds(table, cursor, owner) == rest;
      }
    }
  }

  /** All ids the query could return, in order. */
  function Everything(table: Table, cursor: Option<int>, owner: Option<string>): seq<int> {
    SortIds(MatchingIds(table, cursor, owner))
  }

  lemma EverythingExact(table: Table, cursor: Option<int>, owner: Option<string>)
    requires UniqueIds(table)
    ensures Ascending(Everything(table, cursor, owner))
    ensures forall id :: id in Everything(table, cursor, owner) <==> Holds(table, id, cursor, owner)
  {
    SortedMatches(table, cursor, owner);
    forall id ensures id in Everything(table, cursor, owner) <==> Holds(table, id, cursor, owner) {
      MatchingExact(table, cursor, owner, id);
    }
  }

  /** The page in terms of all the ids there are. */
  lemma PageOfEverything(table: Table, cursor: Option<int>, limit: nat, owner: Option<string>)
    requires limit >= 1
    ensures var all := Everything(table, cursor, owner);
            ListPage(table, cursor, limit, owner) ==
              if |all| > limit then Page(all[..limit], Some(all[limit - 1]), true) else Page(all, None, false)
  {
    hide SortIds, MatchingIds;
    var all := Everything(table, cursor, owner);
    if |all| > limit {
      assert all[..limit + 1][..limit] == all[..limit];
    }
  }

  /** A page is the next ids in order: none skipped, none invented. */
  lemma PageExact(table: Table, cursor: Option<int>, limit: nat, owner: Option<string>)
    requires UniqueIds(table) && limit >= 1
    ensures var page := ListPage(table, cursor, limit, owner);
            && Ascending(page.items) && |page.items| <= limit
            && (forall id | id in page.items :: Holds(table, id, cursor, owner))
            && (page.hasMore <==> page.nextCursor.Some?)
            && (page.hasMore ==> page.items != [] && page.nextCursor == Some(page.items[|page.items| - 1]))
            && (forall id | Holds(table, id, cursor, owner) && (page.hasMore ==> id <= page.nextCursor.value) :: id in page.items)
  {
    EverythingExact(table, cursor, owner);
    PageOfEverything(table, cursor, limit, owner);
    hide Everything, ListPage, Holds, UniqueIds;
    var all := Everything(table, cursor, owner);
    var page := ListPage(table, cursor, limit, owner);
    forall id | Holds(table, id, cursor, owner) && (page.hasMore ==> id <= page.nextCursor.value) ensures id in page.items {
      assert id in all;
      if page.hasMore {
        InFirst(all, limit, id);
      }
    }
  }

  lemma InFirst(all: seq<int>, limit: nat, id: int)
    requires Ascending(all) && 1 <= limit < |all| && id in all && id <= all[limit - 1]
    ensures id in all[..limit]
  {
    var i :| 0 <= i < |all| && all[i] == id;
    AtMostLast(all, limit, i);
    assert all[..limit][i] == id;
  }

  lemma AtMostLast(all: seq<int>, limit: nat, i: nat)
    requires Ascending(all) && 1 <= limit < |all| && i < |all| && all[i] <= all[limit - 1]
    ensures i < limit
  {
  }

  // ---- Walking the pages ---------------------------------------------------------------

  /** Following `nextCursor`, reading each page from the table as it is by then; and whether the end was reached. */
  function Walk(tables: seq<Table>, cursor: Option<int>, limit: nat, owner: Option<string>): (seq<int>, bool) {
    if tables == [] then ([], false)
    else
      var page := ListPage(tables[0], cursor, limit, owner);
      if !page.hasMore then (page.items, true)
      else
        var (rest, finished) := Walk(tables[1..], page.nextCursor, limit, owner);
        (page.items + rest, finished)
  }

  /** How many of the tables the walk reads. */
  function PagesRead(tables: seq<Table>, cursor: Option<int>, limit: nat, owner: Option<string>): (n: nat)
    ensures n <= |tables|
  {
    if tables == [] then 0
    else
      var page := ListPage(tables[0], cursor, limit, owner);
      1 + if page.hasMore then PagesRead(tables[1..], page.nextCursor, limit, owner) else 0
  }

  ghost predicate AllUnique(tables: seq<Table>) {
    forall k | 0 <= k < |tables| :: UniqueIds(tables[k])
  }

  ghost predicate AfterCursor(s: seq<int>, cursor: Option<int>) {
    forall id | id in s && cursor.Some? :: id > cursor.value
  }

  lemma HoldsAfterCursor(table: Table, id: int, cursor: Option<int>, owner: Option<string>)
    requires Holds(table, id, cursor, owner)
    ensures cursor.Some? ==> id > cursor.value
  {
  }

  /** However the table changes between pages, the walk goes strictly up: no id twice, and in order. */
  lemma {:induction false} WalkAscends(tables: seq<Table>, cursor: Option<int>, limit: nat, owner: Option<string>)
    requires AllUnique(tables) && limit >= 1
    ensures Ascending(Walk(tables, cursor, limit, owner).0)
    ensures AfterCursor(Walk(tables, cursor, limit, owner).0, cursor)
  {
    if tables != [] {
      var page := ListPage(tables[0], cursor, limit, owner);
      assert UniqueIds(tables[0]);
      PageAscends(tables[0], cursor, limit, owner);
      hide ListPage, UniqueIds;
      if page.hasMore {
        WalkAscends(tables[1..], page.nextCursor, limit, owner);
        var rest := Walk(tables[1..], page.nextCursor, limit, owner).0;
        AppendAscending(page.items, rest, cursor);
      }
    }
  }

  lemma PageAscends(table: Table, cursor: Option<int>, limit: nat, owner: Option<string>)
    requires UniqueIds(table) && limit >= 1
    ensures var page := ListPage(table, cursor, limit, owner);
            && Ascending(page.items) && AfterCursor(page.items, cursor)
            && (page.hasMore ==> page.items != [] && page.nextCursor == Some(page.items[|page.items| - 1]))
  {
    hide ListPage, UniqueIds;
    var page := ListPage(table, cursor, limit, owner);
    PageExact(table, cursor, limit, owner);
    forall id | id in page.items && cursor.Some? ensures id > cursor.value {
      HoldsAfterCursor(table, id, cursor, owner);
    }
  }

  lemma AppendAscending(s: seq<int>, t: seq<int>, cursor: Option<int>)
    requires Ascending(s) && Ascending(t) && s != []
    requires AfterCursor(s, cursor) && AfterCursor(t, Some(s[|s| - 1]))
    ensures Ascending(s + t) && AfterCursor(s + t, cursor)
  {
    assert s[|s| - 1] in s;
    forall i, j | 0 <= i < j < |s + t| ensures (s + t)[i] < (s + t)[j] {
      if i < |s| <= j { assert t[j - |s|] in t; }
    }
    forall id | id in s + t && cursor.Some? ensures id > cursor.value {
      assert id in s || id in t;
    }
  }

  /** Every id present, and matching, in each table read is returned by a finished walk. */
  lemma {:induction false} WalkMissesNothing(tables: seq<Table>, cursor: Option<int>, limit: nat, owner: Option<string>, id: int)
    requires AllUnique(tables) && limit >= 1 && Walk(tables, cursor, limit, owner).1
    requires cursor.Some? ==> id > cursor.value
    requires forall k | 0 <= k < PagesRead(tables, cursor, limit, owner) :: Holds(tables[k], id, None, owner)
    ensures id in Walk(tables, cursor, limit, owner).0
  {
    var page := ListPage(tables[0], cursor, limit, owner);
    assert UniqueIds(tables[0]) && Holds(tables[0], id, None, owner);
    HoldsPastCursor(tables[0], id, cursor, owner);
    PageExact(tables[0], cursor, limit, owner);
    if page.hasMore && id !in page.items {
      forall k | 0 <= k < PagesRead(tables[1..], page.nextCursor, limit, owner) ensures Holds(tables[1..][k], id, None, owner) {
        assert tables[1..][k] == tables[k + 1];
      }
      WalkMissesNothing(tables[1..], page.nextCursor, limit, owner, id);
    }
  }

  lemma HoldsPastCursor(table: Table, id: int, cursor: Option<int>, owner: Option<string>)
    requires Holds(table, id, None, owner) && (cursor.Some? ==> id > cursor.value)
    ensures Holds(table, id, cursor, owner)
  {
    var i :| 0 <= i < |table| && table[i].id == id && Matches(table[i], None, owner);
    assert Matches(table[i], cursor, owner);
  }

  /** Every id returned was in one of the tables read. */
  lemma {:induction false} WalkInventsNothing(tables: seq<Table>, cursor: Option<int>, limit: nat, owner: Option<string>, id: int)
    requires AllUnique(tables) && limit >= 1 && id in Walk(tables, cursor, limit, owner).0
    ensures exists k | 0 <= k < PagesRead(tables, cursor, limit, owner) :: Holds(tables[k], id, None, owner)
  {
    var page := ListPage(tables[0], cursor, limit, owner);
    assert UniqueIds(tables[0]);
    PageExact(tables[0], cursor, limit, owner);
    if id in page.items {
      var i :| 0 <= i < |tables[0]| && tables[0][i].id == id && Matches(tables[0][i], cursor, owner);
      assert Matches(tables[0][i], None, owner);
      assert Holds(tables[0], id, None, owner);
    } else {
      WalkInventsNothing(tables[1..], page.nextCursor, limit, owner, id);
      var k :| 0 <= k < PagesRead(tables[1..], page.nextCursor, limit, owner) && Holds(tables[1..][k], id, None, owner);
      assert tables[1..][k] == tables[k + 1];
    }
  }

  lemma {:induction false} AscendingUnique(s: seq<int>, t: seq<int>)
    requires Ascending(s) && Ascending(t) && SameElements(s, t)
    ensures s == t
    decreases |s|
  {
    assert (s != [] ==> s[0] in s) && (t != [] ==> t[0] in t);
    if s != [] {
      assert s[0] in t && t[0] in s;
      assert s[0] == t[0];
      forall x ensures x in s[1..] <==> x in t[1..] {
        assert x in s[1..] <==> x in s && x != s[0] by { assert s == [s[0]] + s[1..]; }
        assert x in t[1..] <==> x in t && x != t[0] by { assert t == [t[0]] + t[1..]; }
      }
      AscendingUnique(s[1..], t[1..]);
    }
  }

  /** What is left after a full page. */
  lemma RestAfterPage(table: Table, cursor: Option<int>, limit: nat, owner: Option<string>)
    requires UniqueIds(table) && 1 <= limit < |Everything(table, cursor, owner)|
    ensures var all := Everything(table, cursor, owner);
            Everything(table, Some(all[limit - 1]), owner) == all[limit..]
  {
    var all := Everything(table, cursor, owner);
    var next := Some(all[limit - 1]);
    EverythingExact(table, cursor, owner);
    EverythingExact(table, next, owner);
    hide Everything;
    assert all[limit - 1] in all;
    forall id ensures id in Everything(table, next, owner) <==> id in all[limit..] {
      SplitAt(all, limit, id);
      HoldsAfterCursor(table, all[limit - 1], cursor, owner);
      NarrowCursor(table, id, cursor, all[limit - 1], owner);
    }
    AscendingUnique(Everything(table, next, owner), all[limit..]);
  }

  lemma SplitAt(all: seq<int>, limit: nat, id: int)
    requires Ascending(all) && 1 <= limit < |all|
    ensures id in all[limit..] <==> id in all && id > all[limit - 1]
  {
  }

  lemma NarrowCursor(table: Table, id: int, cursor: Option<int>, next: int, owner: Option<string>)
    requires cursor.Some? ==> next > cursor.value
    ensures Holds(table, id, Some(next), owner) <==> Holds(table, id, cursor, owner) && id > next
  {
    if Holds(table, id, Some(next), owner) {
      var i :| 0 <= i < |table| && table[i].id == id && Matches(table[i], Some(next), owner);
      assert Matches(table[i], cursor, owner);
    }
    if Holds(table, id, cursor, owner) && id > next {
      var i :| 0 <= i < |table| && table[i].id == id && Matches(table[i], cursor, owner);
      assert Matches(table[i], Some(next), owner);
    }
  }

  lemma WalkOn(tables: seq<Table>, cursor: Option<int>, limit: nat, owner: Option<string>)
    requires tables != []
    ensures var page := ListPage(tables[0], cursor, limit, owner);
            var rest := Walk(tables[1..], page.nextCursor, limit, owner);
            Walk(tables, cursor, limit, owner) == if page.hasMore then (page.items + rest.0, rest.1) else (page.items, true)
  {
    hide ListPage;
  }

  /** On a table that does not change, enough pages enumerate exactly the matching ids, in order, and stop. */
  lemma {:induction false} FixedWalkEnumerates(tables: seq<Table>, table: Table, cursor: Option<int>, limit: nat, owner: Option<string>)
    requires forall k | 0 <= k < |tables| :: tables[k] == table
    requires UniqueIds(table) && limit >= 1 && tables != []
    requires |Everything(table, cursor, owner)| <= |tables| * limit
    ensures Walk(tables, cursor, limit, owner) == (Everything(table, cursor, owner), true)
    decreases |tables|
  {
    hide *;
    WalkOn(tables, cursor, limit, owner);
    PageOfEverything(table, cursor, limit, owner);
    var all := Everything(table, cursor, owner);
    if |all| > limit {
      RestAfterPage(table, cursor, limit, owner);
      OnePageFewer(|all|, |tables|, limit);
      FixedWalkEnumerates(tables[1..], table, Some(all[limit - 1]), limit, owner);
      assert all == all[..limit] + all[limit..];
    }
  }

  lemma OnePageFewer(n: nat, pages: nat, limit: nat)
    requires limit < n <= pages * limit
    ensures pages > 1 && n - limit <= (pages - 1) * limit
  {
    assert (pages - 1) * limit == pages * limit - limit;
    assert pages <= 1 ==> pages * limit <= limit;
  }

  /** A limit of zero never advances: it reports more rows and gives no cursor to reach them. */
  lemma ZeroLimitStalls(table: Table, cursor: Option<int>, owner: Option<string>)
    requires Everything(table, cursor, owner) != []
    ensures ListPage(table, cursor, 0, owner) == Page([], None, true)
  {
  }
}
