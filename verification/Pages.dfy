/**
 * Cursor pagination over one team's rows (apps/api/src/app.ts): `keysetPage`
 * reads a page out of the database with a bound on the sort key, `arrayPage`
 * cuts it out of a list already in memory. Both list newest first.
 */
module Pages {
  import opened Common

  /** A row's sort key is its creation time, then its id. */
  datatype Row = Row(id: nat, createdAt: int)

  datatype Query = Query(limit: Option<nat>, before: Option<nat>, after: Option<nat>)

  datatype Page = Page(rows: seq<Row>, hasMore: bool)

  datatype Answer = BadCursor | Answer(page: Page)

  const DEFAULT_PAGE_LIMIT := 20

  predicate Newer(a: Row, b: Row) { a.createdAt > b.createdAt || (a.createdAt == b.createdAt && a.id > b.id) }

  ghost predicate NewestFirst(rows: seq<Row>) { forall i, j | 0 <= i < j < |rows| :: Newer(rows[i], rows[j]) }

  ghost predicate DistinctIds(rows: seq<Row>) { forall i, j | 0 <= i < j < |rows| :: rows[i].id != rows[j].id }

  function LimitOf(q: Query): nat { if q.limit.Some? then q.limit.value else DEFAULT_PAGE_LIMIT }

  /** `before` wins when a request carries both cursors. */
  function CursorOf(q: Query): Option<nat> { if q.before.Some? then q.before else q.after }

  function Reverse(rows: seq<Row>): (r: seq<Row>)
    ensures |r| == |rows| && forall i | 0 <= i < |r| :: r[i] == rows[|rows| - 1 - i]
  {
    seq(|rows|, i requires 0 <= i < |rows| => rows[|rows| - 1 - i])
  }

  function Take(rows: seq<Row>, n: nat): seq<Row> { if n < |rows| then rows[..n] else rows }

  // ---- The list form ----

  function FindFrom(items: seq<Row>, id: nat, i: nat): (at: Option<nat>)
    requires i <= |items|
    ensures at.Some? ==> i <= at.value < |items| && items[at.value].id == id
    ensures at.None? ==> forall j | i <= j < |items| :: items[j].id != id
    decreases |items| - i
  {
    if i == |items| then None else if items[i].id == id then Some(i) else FindFrom(items, id, i + 1)
  }

  function FindIndex(items: seq<Row>, id: nat): Option<nat> { FindFrom(items, id, 0) }

  function ArrayPage(items: seq<Row>, q: Query): Answer
  {
    var limit := LimitOf(q);
    match CursorOf(q)
    case None => Answer(Page(Take(items, limit), limit < |items|))
    case Some(id) =>
      match FindIndex(items, id)
      case None => BadCursor
      case Some(at) =>
        if q.before.Some? then
          var from := Max(0, at - limit);
          Answer(Page(items[from..at], from > 0))
        else Answer(Page(Take(items[at + 1..], limit), at + 1 + limit < |items|))
  }

  /** A cursor no row has is refused; with both given, `before` is the one that counts; a page is 20 rows by default. */
  lemma Requests(items: seq<Row>, limit: Option<nat>, b: nat, a: nat)
    ensures ArrayPage(items, Query(limit, Some(b), Some(a))) == ArrayPage(items, Query(limit, Some(b), None))
    ensures ArrayPage(items, Query(limit, Some(b), None)) == BadCursor <==> forall r | r in items :: r.id != b
    ensures ArrayPage(items, Query(limit, None, Some(a))) == BadCursor <==> forall r | r in items :: r.id != a
    ensures ArrayPage(items, Query(limit, None, None)).Answer?
    ensures ArrayPage(items, Query(None, Some(b), None)) == ArrayPage(items, Query(Some(20), Some(b), None))
    ensures ArrayPage(items, Query(None, None, Some(a))) == ArrayPage(items, Query(Some(20), None, Some(a)))
    ensures ArrayPage(items, Query(None, None, None)) == ArrayPage(items, Query(Some(20), None, None))
  {
  }

  // ---- The database form ----

  /** What a cursor id resolves to, within the team: a row, the end below every row, or nothing. */
  datatype Cursor = AtRow(row: Row) | AtEnd | Unknown

  ghost function LoadCursor(table: set<Row>, end: Option<nat>, id: nat): Cursor
  {
    if exists r :: r in table && r.id == id then
      var r :| r in table && r.id == id;
      AtRow(r)
    else if end == Some(id) then AtEnd else Unknown
  }

  ghost predicate Newest(table: set<Row>, m: Row) { m in table && forall r | r in table && r != m :: Newer(m, r) }

  lemma {:induction false} HasNewest(table: set<Row>)
    requires table != {}
    ensures exists m :: Newest(table, m)
  {
    var x :| x in table;
    var rest := table - {x};
    if rest == {} {
      assert forall r | r in table && r != x :: r in rest;
      assert Newest(table, x);
    } else {
      HasNewest(rest);
      var m :| Newest(rest, m);
      NewestWith(table, x, m);
    }
  }

  lemma NewestWith(table: set<Row>, x: Row, m: Row)
    requires x in table && Newest(table - {x}, m)
    ensures Newest(table, if Newer(m, x) then m else x)
  {
    assert Newer(m, x) || Newer(x, m);
    forall r | r in table && r != x && r != m ensures Newer(m, r) {
      assert r in table - {x};
    }
  }

  /** A set of rows in the list's order. */
  ghost function ListOf(table: set<Row>): seq<Row>
  {
    if table == {} then [] else
      HasNewest(table);
      var m :| Newest(table, m);
      [m] + ListOf(table - {m})
  }

  /** The list holds the table's rows, newest first. */
  ghost predicate Lists(list: seq<Row>, table: set<Row>)
  {
    NewestFirst(list) && forall r :: r in list <==> r in table
  }

  lemma ListsJoin(m: Row, rest: seq<Row>, table: set<Row>)
    requires Newest(table, m) && Lists(rest, table - {m})
    ensures Lists([m] + rest, table)
  {
    var list := [m] + rest;
    forall r ensures r in list <==> r in table { assert r in list <==> r == m || r in rest; }
    forall i, j | 0 <= i < j < |list| ensures Newer(list[i], list[j]) {
      assert list[j] == rest[j - 1] && rest[j - 1] in rest;
    }
  }

  lemma {:induction false} ListOfLists(table: set<Row>)
    ensures Lists(ListOf(table), table)
  {
    if table != {} {
      HasNewest(table);
      var m := ListOf(table)[0];
      assert ListOf(table) == [m] + ListOf(table - {m}) && Newest(table, m);
      ListOfLists(table - {m});
      ListsJoin(m, ListOf(table - {m}), table);
    }
  }

  ghost function Matching(table: set<Row>, bound: Option<Row>, towardNewer: bool): set<Row>
  {
    if bound.None? then table
    else if towardNewer then set r | r in table && Newer(r, bound.value)
    else set r | r in table && Newer(bound.value, r)
  }

  /** `select ... where <bound> order by (created_at, id) <dir> limit take`. */
  ghost function LoadRows(table: set<Row>, bound: Option<Row>, towardNewer: bool, take: nat): seq<Row>
  {
    var list := ListOf(Matching(table, bound, towardNewer));
    Take(if towardNewer then Reverse(list) else list, take)
  }

  /** One extra row decides whether there are more; a `before` page is fetched outward, then put in order. */
  ghost function KeysetPage(table: set<Row>, end: Option<nat>, q: Query): Answer
  {
    var limit := LimitOf(q);
    var towardNewer := q.before.Some?;
    var cursor := if CursorOf(q).Some? then LoadCursor(table, end, CursorOf(q).value) else AtEnd;
    if CursorOf(q).Some? && cursor.Unknown? then BadCursor
    else if CursorOf(q).Some? && cursor.AtEnd? && !towardNewer then Answer(Page([], false))
    else
      var bound := if cursor.AtRow? then Some(cursor.row) else None;
      var fetched := LoadRows(table, bound, towardNewer, limit + 1);
      var rows := Take(fetched, limit);
      Answer(Page(if towardNewer then Reverse(rows) else rows, limit < |fetched|))
  }

  // ---- The database form refines the list form ----

  lemma BothEmpty(a: seq<Row>, b: seq<Row>)
    requires forall r :: r in a <==> r in b
    ensures a == [] <==> b == []
  {
    if a != [] { assert a[0] in b; }
    if b != [] { assert b[0] in a; }
  }

  /** A list in this order is determined by what is in it. */
  lemma {:induction false} ListUnique(a: seq<Row>, b: seq<Row>)
    requires NewestFirst(a) && NewestFirst(b) && forall r :: r in a <==> r in b
    ensures a == b
  {
    BothEmpty(a, b);
    if a != [] {
      assert a[0] in b && b != [] && b[0] in a;
      var i :| 0 <= i < |b| && b[i] == a[0];
      var j :| 0 <= j < |a| && a[j] == b[0];
      assert a[0] == b[0];
      forall r ensures r in a[1..] <==> r in b[1..] {
        assert r in a <==> r == a[0] || r in a[1..];
        assert r in b <==> r == b[0] || r in b[1..];
        assert a[0] !in a[1..] && b[0] !in b[1..];
      }
      ListUnique(a[1..], b[1..]);
    }
  }

  lemma ListIs(table: set<Row>, list: seq<Row>)
    requires Lists(list, table)
    ensures ListOf(table) == list
  {
    ListOfLists(table);
    ListUnique(ListOf(table), list);
  }

  /** Rows older than a listed row are the slice of the list after it. */
  lemma OlderSide(table: set<Row>, list: seq<Row>, at: nat)
    requires Lists(list, table) && at < |list|
    ensures ListOf(set r | r in table && Newer(list[at], r)) == list[at + 1..]
  {
    var older := set r | r in table && Newer(list[at], r);
    forall r ensures r in list[at + 1..] <==> r in older {
      if r in older {
        assert r in list;
        var i :| 0 <= i < |list| && list[i] == r;
        assert list[at + 1..][i - at - 1] == r;
      }
    }
    ListIs(older, list[at + 1..]);
  }

  lemma NewerSide(table: set<Row>, list: seq<Row>, at: nat)
    requires Lists(list, table) && at < |list|
    ensures ListOf(set r | r in table && Newer(r, list[at])) == list[..at]
  {
    var newer := set r | r in table && Newer(r, list[at]);
    forall r ensures r in list[..at] <==> r in newer {
      if r in newer {
        assert r in list;
        var i :| 0 <= i < |list| && list[i] == r;
        assert list[..at][i] == r;
      }
    }
    ListIs(newer, list[..at]);
  }

  lemma CursorFound(table: set<Row>, list: seq<Row>, end: Option<nat>, id: nat)
    requires Lists(list, table) && DistinctIds(list)
    ensures LoadCursor(table, end, id) ==
            match FindIndex(list, id)
            case Some(at) => AtRow(list[at])
            case None => if end == Some(id) then AtEnd else Unknown
  {
    var at := FindIndex(list, id);
    if at.Some? { assert list[at.value] in table; }
    if r :| r in table && r.id == id {
      assert r in list;
      assert LoadCursor(table, end, id).AtRow?;
      var picked := LoadCursor(table, end, id).row;
      assert picked in list && picked.id == id;
    }
  }

  /** The extra row fetched is cut off again, and only tells whether there are more. */
  lemma ExtraRow(rows: seq<Row>, limit: nat)
    ensures Take(Take(rows, limit + 1), limit) == Take(rows, limit)
    ensures limit < |Take(rows, limit + 1)| <==> limit < |rows|
  {
  }

  /** Fetching outward and turning round is cutting from the end. */
  lemma OutwardIsSlice(rows: seq<Row>, limit: nat)
    ensures var fetched := Take(Reverse(rows), limit + 1);
            && Reverse(Take(fetched, limit)) == rows[Max(0, |rows| - limit)..]
            && (limit < |fetched| <==> Max(0, |rows| - limit) > 0)
  {
  }

  /** A `before` page is the end of the list cut off at the cursor. */
  lemma OutwardPage(table: set<Row>, end: Option<nat>, q: Query, side: seq<Row>)
    requires q.before.Some? && LoadCursor(table, end, q.before.value) != Unknown
    requires var cursor := LoadCursor(table, end, q.before.value);
             ListOf(Matching(table, if cursor.AtRow? then Some(cursor.row) else None, true)) == side
    ensures var from := Max(0, |side| - LimitOf(q)); KeysetPage(table, end, q) == Answer(Page(side[from..], from > 0))
  {
    OutwardIsSlice(side, LimitOf(q));
  }

  lemma RefinesBefore(table: set<Row>, list: seq<Row>, q: Query)
    requires Lists(list, table) && DistinctIds(list) && q.before.Some?
    ensures KeysetPage(table, None, q) == ArrayPage(list, q)
  {
    CursorFound(table, list, None, q.before.value);
    var at := FindIndex(list, q.before.value);
    if at.Some? {
      NewerSide(table, list, at.value);
      OutwardPage(table, None, q, list[..at.value]);
      assert list[..at.value][Max(0, at.value - LimitOf(q))..] == list[Max(0, at.value - LimitOf(q))..at.value];
    }
  }

  lemma RefinesAfter(table: set<Row>, list: seq<Row>, q: Query)
    requires Lists(list, table) && DistinctIds(list) && q.before.None? && q.after.Some?
    ensures KeysetPage(table, None, q) == ArrayPage(list, q)
  {
    CursorFound(table, list, None, q.after.value);
    var at := FindIndex(list, q.after.value);
    if at.Some? {
      OlderSide(table, list, at.value);
      ExtraRow(list[at.value + 1..], LimitOf(q));
    }
  }

  /**
   * For every query, cursors unknown to the team included, the database form
   * answers with the same rows and the same has_more as the list form over
   * the newest-first list.
   */
  lemma KeysetRefinesArray(table: set<Row>, list: seq<Row>, q: Query)
    requires Lists(list, table) && DistinctIds(list)
    ensures KeysetPage(table, None, q) == ArrayPage(list, q)
  {
    if q.before.Some? {
      RefinesBefore(table, list, q);
    } else if q.after.Some? {
      RefinesAfter(table, list, q);
    } else {
      ListIs(table, list);
      ExtraRow(list, LimitOf(q));
    }
  }

  /** The end cursor reads as one past the oldest row. */
  lemma EndCursor(table: set<Row>, list: seq<Row>, end: nat, q: Query)
    requires Lists(list, table) && DistinctIds(list) && CursorOf(q) == Some(end)
    requires FindIndex(list, end).None?
    ensures var from := Max(0, |list| - LimitOf(q));
            KeysetPage(table, Some(end), q) ==
            Answer(if q.before.Some? then Page(list[from..], from > 0) else Page([], false))
  {
    CursorFound(table, list, Some(end), end);
    ListIs(table, list);
    if q.before.Some? { OutwardPage(table, Some(end), q, list); }
  }

  // ---- Following the cursors ----

  function After(limit: nat, cursor: Option<nat>): Query { Query(Some(limit), None, cursor) }

  /** Where the page after a cursor starts. */
  function StartOf(items: seq<Row>, cursor: Option<nat>): (start: nat)
    requires cursor.Some? ==> FindIndex(items, cursor.value).Some?
    ensures start <= |items|
  {
    if cursor.None? then 0 else FindIndex(items, cursor.value).value + 1
  }

  lemma IndexOfListed(items: seq<Row>, i: nat)
    requires DistinctIds(items) && i < |items|
    ensures FindIndex(items, items[i].id) == Some(i)
  {
  }

  /** The rows met by following `after` from page to page until has_more is false. */
  function Follow(items: seq<Row>, limit: nat, cursor: Option<nat>): seq<Row>
    requires limit > 0 && DistinctIds(items)
    requires cursor.Some? ==> FindIndex(items, cursor.value).Some?
    decreases |items| - StartOf(items, cursor)
  {
    var page := ArrayPage(items, After(limit, cursor)).page;
    if !page.hasMore then page.rows else
      var start := StartOf(items, cursor);
      assert page.rows[limit - 1] == items[start + limit - 1];
      IndexOfListed(items, start + limit - 1);
      page.rows + Follow(items, limit, Some(page.rows[|page.rows| - 1].id))
  }

  /** Following `after` walks the whole list, in order, with no repeat. */
  lemma {:induction false} FollowIsList(items: seq<Row>, limit: nat, cursor: Option<nat>)
    requires limit > 0 && DistinctIds(items)
    requires cursor.Some? ==> FindIndex(items, cursor.value).Some?
    ensures Follow(items, limit, cursor) == items[StartOf(items, cursor)..]
    decreases |items| - StartOf(items, cursor)
  {
    var page := ArrayPage(items, After(limit, cursor)).page;
    var start := StartOf(items, cursor);
    if page.hasMore {
      IndexOfListed(items, start + limit - 1);
      assert page.rows == items[start..start + limit];
      FollowIsList(items, limit, Some(items[start + limit - 1].id));
      assert items[start..] == items[start..start + limit] + items[start + limit..];
    }
  }

  lemma PageAfter(items: seq<Row>, limit: nat, cursor: Option<nat>)
    requires DistinctIds(items) && (cursor.Some? ==> FindIndex(items, cursor.value).Some?)
    ensures var start := StartOf(items, cursor);
            ArrayPage(items, After(limit, cursor)) == Answer(Page(Take(items[start..], limit), start + limit < |items|))
  {
    assert items[0..] == items;
  }

  /** There is more after a page exactly when it stops short of the last row. */
  lemma MoreStays(items: seq<Row>, limit: nat, cursor: Option<nat>)
    requires DistinctIds(items) && (cursor.Some? ==> FindIndex(items, cursor.value).Some?)
    ensures ArrayPage(items, After(limit, cursor)).page.hasMore <==> StartOf(items, cursor) + limit < |items|
  {
    PageAfter(items, limit, cursor);
  }

  lemma PageBefore(items: seq<Row>, limit: nat, at: nat)
    requires DistinctIds(items) && at < |items|
    ensures ArrayPage(items, Query(Some(limit), Some(items[at].id), None))
            == Answer(Page(items[Max(0, at - limit)..at], at > limit))
  {
    IndexOfListed(items, at);
  }

  lemma StartAt(items: seq<Row>, i: nat)
    requires DistinctIds(items) && i < |items|
    ensures FindIndex(items, items[i].id).Some? && StartOf(items, Some(items[i].id)) == i + 1
  {
    IndexOfListed(items, i);
  }

  /** A page with more after it is full, and the next one starts where it ends. */
  lemma NextPage(items: seq<Row>, limit: nat, cursor: Option<nat>)
    requires limit > 0 && DistinctIds(items)
    requires cursor.Some? ==> FindIndex(items, cursor.value).Some?
    requires StartOf(items, cursor) + limit < |items|
    ensures var start := StartOf(items, cursor);
            && ArrayPage(items, After(limit, cursor)) == Answer(Page(items[start..start + limit], true))
            && ArrayPage(items, After(limit, Some(items[start + limit - 1].id)))
               == Answer(Page(Take(items[start + limit..], limit), start + 2 * limit < |items|))
  {
    var start := StartOf(items, cursor);
    PageAfter(items, limit, cursor);
    StartAt(items, start + limit - 1);
    PageAfter(items, limit, Some(items[start + limit - 1].id));
  }

  lemma NextFirst(items: seq<Row>, at: nat, limit: nat)
    requires limit > 0 && at < |items|
    ensures Take(items[at..], limit) != [] && Take(items[at..], limit)[0] == items[at]
  {
  }

  /** `before` the first id of a page returns the page that led to it, and knows whether it was the first. */
  lemma BeforeUndoesAfter(items: seq<Row>, limit: nat, cursor: Option<nat>)
    requires limit > 0 && DistinctIds(items)
    requires cursor.Some? ==> FindIndex(items, cursor.value).Some?
    requires ArrayPage(items, After(limit, cursor)).page.hasMore
    ensures var page := ArrayPage(items, After(limit, cursor)).page;
            page.rows != [] &&
            var next := ArrayPage(items, After(limit, Some(page.rows[|page.rows| - 1].id)));
            && next.Answer? && next.page.rows != []
            && ArrayPage(items, Query(Some(limit), Some(next.page.rows[0].id), None))
               == Answer(Page(page.rows, StartOf(items, cursor) > 0))
  {
    var start := StartOf(items, cursor);
    MoreStays(items, limit, cursor);
    NextPage(items, limit, cursor);
    var at := start + limit;
    var rows := items[start..at];
    assert ArrayPage(items, After(limit, cursor)) == Answer(Page(rows, true)) && rows[|rows| - 1] == items[at - 1];
    NextFirst(items, at, limit);
    PageBefore(items, limit, at);
    assert Max(0, at - limit) == start;
  }
}
