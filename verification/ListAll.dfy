/**
 * The client's cursor walk (packages/cli/src/millionsend.ts, `listAll`) under
 * its guard (packages/cli/src/http.ts, `cursorGuard`): against any server it
 * stops, and against one that pages like a list it returns every row once,
 * oldest first.
 */
module ListAll {
  import opened Common
  import opened Pages

  datatype Reason = TooManyPages | IgnoredCursor | NothingNew

  datatype Listing = Listed(rows: seq<Row>) | Raised(reason: Reason)

  /** What a server answers to the n-th request of a walk, given the cursor: anything. */
  type Server = (nat, Option<nat>) -> Page

  function Ids(rows: seq<Row>): set<nat> { set r | r in rows :: r.id }

  function LastId(rows: seq<Row>): Option<nat> { if rows == [] then None else Some(rows[|rows| - 1].id) }

  /** The guard's check of one page: the cursor must move, and a page that is not empty must bring an id. */
  function Check(pages: nat, maxPages: nat, seen: set<nat>, rows: seq<Row>, after: Option<nat>): Option<Reason>
  {
    if pages > maxPages then Some(TooManyPages)
    else if rows != [] && LastId(rows) == after then Some(IgnoredCursor)
    else if rows != [] && Ids(rows) <= seen then Some(NothingNew)
    else None
  }

  // ---- Oldest first ----

  ghost predicate OldestFirst(rows: seq<Row>) { forall i, j | 0 <= i < j < |rows| :: !Newer(rows[i], rows[j]) }

  /** Stable: a row goes after the ones it ties with. */
  function Insert(rows: seq<Row>, r: Row): seq<Row>
  {
    if rows == [] || !Newer(rows[|rows| - 1], r) then rows + [r]
    else Insert(rows[..|rows| - 1], r) + [rows[|rows| - 1]]
  }

  function Sort(rows: seq<Row>): seq<Row>
  {
    if rows == [] then [] else Insert(Sort(rows[..|rows| - 1]), rows[|rows| - 1])
  }

  lemma {:induction false} InsertSorts(rows: seq<Row>, r: Row)
    requires OldestFirst(rows)
    ensures OldestFirst(Insert(rows, r)) && multiset(Insert(rows, r)) == multiset(rows) + multiset{r}
  {
    if rows != [] {
      var n := |rows| - 1;
      assert rows == rows[..n] + [rows[n]];
      if Newer(rows[n], r) {
        InsertSorts(rows[..n], r);
        forall x | x in Insert(rows[..n], r) ensures !Newer(x, rows[n]) {
          assert x in multiset(Insert(rows[..n], r));
        }
      } else {
        assert forall i | 0 <= i < |rows| :: !Newer(rows[i], r);
      }
    }
  }

  lemma {:induction false} SortSorts(rows: seq<Row>)
    ensures OldestFirst(Sort(rows)) && multiset(Sort(rows)) == multiset(rows)
  {
    if rows != [] {
      var n := |rows| - 1;
      assert rows == rows[..n] + [rows[n]];
      SortSorts(rows[..n]);
      InsertSorts(Sort(rows[..n]), rows[n]);
    }
  }

  /** Rows already newest first sort to their reverse. */
  lemma SortReverses(rows: seq<Row>)
    requires NewestFirst(rows)
    ensures Sort(rows) == Reverse(rows)
  {
    SortSorts(rows);
    SameElements(Sort(rows), rows);
    var back := Reverse(Sort(rows));
    SortedDistinct(rows, Sort(rows));
    forall r ensures r in back <==> r in rows {
      InReverse(Sort(rows), r);
      assert r in Sort(rows) <==> r in rows;
    }
    ListUnique(back, rows);
    assert Reverse(back) == Sort(rows);
  }

  lemma InReverse(rows: seq<Row>, r: Row)
    ensures r in Reverse(rows) <==> r in rows
  {
    if r in rows {
      var i :| 0 <= i < |rows| && rows[i] == r;
      assert Reverse(rows)[|rows| - 1 - i] == r;
    }
  }

  lemma SameElements(a: seq<Row>, b: seq<Row>)
    requires multiset(a) == multiset(b)
    ensures forall r :: r in a <==> r in b
  {
    forall r ensures r in a <==> r in b {
      assert r in a <==> r in multiset(a);
      assert r in b <==> r in multiset(b);
    }
  }

  lemma {:induction false} NoRepeat(rows: seq<Row>)
    requires NewestFirst(rows)
    ensures forall r :: multiset(rows)[r] <= 1
  {
    if rows != [] {
      var n := |rows| - 1;
      assert rows == rows[..n] + [rows[n]];
      NoRepeat(rows[..n]);
      assert rows[n] !in rows[..n];
    }
  }

  lemma SortedDistinct(rows: seq<Row>, sorted: seq<Row>)
    requires NewestFirst(rows) && OldestFirst(sorted) && multiset(sorted) == multiset(rows)
    ensures NewestFirst(Reverse(sorted))
  {
    NoRepeat(rows);
    forall i, j | 0 <= i < j < |sorted| ensures Newer(sorted[j], sorted[i]) {
      if sorted[i] == sorted[j] {
        Twice(sorted, i, j);
        assert false;
      }
    }
  }

  lemma Twice(rows: seq<Row>, i: nat, j: nat)
    requires i < j < |rows| && rows[i] == rows[j]
    ensures multiset(rows)[rows[i]] >= 2
  {
    assert rows == rows[..j] + [rows[j]] + rows[j + 1..];
    assert rows[..j][i] == rows[i];
    assert rows[i] in rows[..j];
  }

  // ---- The walk ----

  /** The walk from its `pages`-th request on, and the number of requests it makes in all. */
  function WalkFrom(server: Server, maxPages: nat, pages: nat, after: Option<nat>, seen: set<nat>, rows: seq<Row>)
    : (Listing, nat)
    decreases maxPages - pages
  {
    var page := server(pages, after);
    var raised := Check(pages + 1, maxPages, seen, page.rows, after);
    if raised.Some? then (Raised(raised.value), pages + 1)
    else if !page.hasMore || page.rows == [] then (Listed(Sort(rows + page.rows)), pages + 1)
    else WalkFrom(server, maxPages, pages + 1, LastId(page.rows), seen + Ids(page.rows), rows + page.rows)
  }

  function Walk(server: Server, maxPages: nat): (Listing, nat) { WalkFrom(server, maxPages, 0, None, {}, []) }

  class CursorGuard {
    const maxPages: nat
    var seen: set<nat>
    var pages: nat

    constructor (maxPages: nat)
      ensures this.maxPages == maxPages && seen == {} && pages == 0
    {
      this.maxPages := maxPages;
      seen := {};
      pages := 0;
    }

    method Admit(page: seq<Row>, after: Option<nat>) returns (raised: Option<Reason>)
      modifies this
      ensures pages == old(pages) + 1
      ensures raised == Check(pages, maxPages, old(seen), page, after)
      ensures raised == Some(TooManyPages) <==> old(pages) >= maxPages
      ensures raised == Some(IgnoredCursor) <==>
              old(pages) < maxPages && page != [] && after == Some(page[|page| - 1].id)
      ensures raised == Some(NothingNew) <==>
              && old(pages) < maxPages && page != [] && after != Some(page[|page| - 1].id)
              && forall r | r in page :: r.id in old(seen)
      ensures seen == old(seen) + if raised.Some? then {} else Ids(page)
    {
      pages := pages + 1;
      if pages > maxPages { return Some(TooManyPages); }
      if page != [] && after == Some(page[|page| - 1].id) { return Some(IgnoredCursor); }
      if page != [] && (forall r | r in page :: r.id in seen) {
        assert Ids(page) <= seen;
        return Some(NothingNew);
      }
      assert Ids(page) <= seen ==> forall r | r in page :: r.id in Ids(page);
      seen := seen + Ids(page);
      return None;
    }
  }

  method ListAll(server: Server, maxPages: nat) returns (listing: Listing, requests: nat)
    ensures (listing, requests) == Walk(server, maxPages)
  {
    var guard := new CursorGuard(maxPages);
    var rows: seq<Row>, after: Option<nat> := [], None;
    requests := 0;
    while true
      invariant guard.maxPages == maxPages && guard.pages == requests <= maxPages
      invariant Walk(server, maxPages) == WalkFrom(server, maxPages, requests, after, guard.seen, rows)
      decreases maxPages - requests
    {
      var page := server(requests, after);
      requests := requests + 1;
      var raised := guard.Admit(page.rows, after);
      if raised.Some? { return Raised(raised.value), requests; }
      rows := rows + page.rows;
      if !page.hasMore || page.rows == [] { return Listed(Sort(rows)), requests; }
      after := Some(page.rows[|page.rows| - 1].id);
    }
  }

  // ---- Against any server ----

  /** Whatever the server answers, the walk stops within one request of its limit. */
  lemma {:induction false} AnyServerStops(server: Server, maxPages: nat, pages: nat, after: Option<nat>,
      seen: set<nat>, rows: seq<Row>)
    requires pages <= maxPages
    ensures pages < WalkFrom(server, maxPages, pages, after, seen, rows).1 <= maxPages + 1
    decreases maxPages - pages
  {
    var page := server(pages, after);
    if Check(pages + 1, maxPages, seen, page.rows, after).None? && page.hasMore && page.rows != [] {
      AnyServerStops(server, maxPages, pages + 1, LastId(page.rows), seen + Ids(page.rows), rows + page.rows);
    }
  }

  /** Every page taken in full counts at least one id no page before it had. */
  lemma EachPageBringsAnId(pages: nat, maxPages: nat, seen: set<nat>, rows: seq<Row>, after: Option<nat>)
    requires Check(pages, maxPages, seen, rows, after).None? && rows != []
    ensures |seen + Ids(rows)| > |seen|
    ensures LastId(rows) != after
  {
    var id :| id in Ids(rows) && id !in seen;
    assert seen < seen + Ids(rows);
    Grows(seen, seen + Ids(rows), id);
  }

  lemma Grows(small: set<nat>, large: set<nat>, id: nat)
    requires small <= large && id in large && id !in small
    ensures |small| < |large|
  {
    assert large == small + (large - small);
    assert id in large - small;
  }

  /** A walk that ends well made no more requests than it met distinct ids, and one. */
  lemma {:induction false} RequestsBounded(server: Server, maxPages: nat, pages: nat, after: Option<nat>,
      seen: set<nat>, rows: seq<Row>)
    requires pages <= |seen| && seen == Ids(rows)
    requires WalkFrom(server, maxPages, pages, after, seen, rows).0.Listed?
    ensures var (listing, requests) := WalkFrom(server, maxPages, pages, after, seen, rows);
            requests <= |Ids(listing.rows)| + 1 && OldestFirst(listing.rows)
    decreases maxPages - pages
  {
    var page := server(pages, after);
    assert Ids(rows + page.rows) == Ids(rows) + Ids(page.rows);
    if page.hasMore && page.rows != [] {
      EachPageBringsAnId(pages + 1, maxPages, seen, page.rows, after);
      RequestsBounded(server, maxPages, pages + 1, LastId(page.rows), seen + Ids(page.rows), rows + page.rows);
    } else {
      SortSorts(rows + page.rows);
      SameElements(Sort(rows + page.rows), rows + page.rows);
      assert Ids(Sort(rows + page.rows)) == Ids(rows + page.rows);
      SubsetSize(seen, Ids(rows + page.rows));
    }
  }

  // ---- Against a server that pages like a list ----

  /** 100 is the limit the walk asks for. */
  function Honest(list: seq<Row>): Server
  {
    (n: nat, after: Option<nat>) =>
      match ArrayPage(list, After(100, after))
      case Answer(page) => page
      case BadCursor => Page([], false)
  }

  function PagesLeft(rows: nat): nat { if rows <= 100 then 1 else 1 + PagesLeft(rows - 100) }

  lemma {:induction false} PagesLeftFits(rows: nat, max: nat)
    ensures PagesLeft(rows) <= max + 1 <==> rows <= 100 * (max + 1)
  {
    if rows > 100 && max > 0 { PagesLeftFits(rows - 100, max - 1); }
    if rows > 100 && max == 0 { assert PagesLeft(rows - 100) >= 1; }
  }

  lemma IdsOfPrefix(list: seq<Row>, start: nat, page: seq<Row>)
    requires DistinctIds(list) && start < |list| && page != [] && start + |page| <= |list|
    requires page == list[start..start + |page|]
    ensures list[start].id in Ids(page) && list[start].id !in Ids(list[..start])
    ensures Ids(list[..start + |page|]) == Ids(list[..start]) + Ids(page)
  {
    assert page[0] == list[start] && page[0] in page;
    assert list[..start + |page|] == list[..start] + page;
  }

  lemma HonestLast(list: seq<Row>, start: nat, after: Option<nat>, rows: seq<Row>)
    requires DistinctIds(list) && (after.Some? ==> FindIndex(list, after.value).Some?) && start == StartOf(list, after)
    requires rows != [] && start + |rows| <= |list| && rows == list[start..start + |rows|]
    ensures LastId(rows) != after
  {
    assert rows[|rows| - 1] == list[start + |rows| - 1];
  }

  /** What a list's server answers to a cursor that leaves it at `start`. */
  function PageAt(list: seq<Row>, start: nat): Page
    requires start <= |list|
  {
    Page(list[start..Min(|list|, start + 100)], start + 100 < |list|)
  }

  lemma HonestPage(list: seq<Row>, n: nat, after: Option<nat>)
    requires DistinctIds(list) && (after.Some? ==> FindIndex(list, after.value).Some?)
    ensures Honest(list)(n, after) == PageAt(list, StartOf(list, after))
  {
    PageAfter(list, 100, after);
  }

  /** One honest page passes the guard while pages are left. */
  lemma HonestPasses(list: seq<Row>, start: nat, after: Option<nat>, pages: nat, maxPages: nat)
    requires DistinctIds(list) && (after.Some? ==> FindIndex(list, after.value).Some?)
    requires start == StartOf(list, after) && (start == 0 || start < |list|)
    ensures Check(pages, maxPages, Ids(list[..start]), PageAt(list, start).rows, after)
            == if pages > maxPages then Some(TooManyPages) else None
  {
    var rows := PageAt(list, start).rows;
    if rows != [] {
      IdsOfPrefix(list, start, rows);
      HonestLast(list, start, after, rows);
    }
  }

  /** A page with more after it takes the walk to where it ends. */
  lemma HonestMoves(list: seq<Row>, start: nat)
    requires DistinctIds(list) && start + 100 < |list|
    ensures var rows := PageAt(list, start).rows;
            && rows != [] && FindIndex(list, LastId(rows).value).Some? && StartOf(list, LastId(rows)) == start + 100
            && list[..start] + rows == list[..start + 100]
            && Ids(list[..start]) + Ids(rows) == Ids(list[..start + 100])
  {
    var rows := PageAt(list, start).rows;
    IdsOfPrefix(list, start, rows);
    StartAt(list, start + 99);
    assert rows[|rows| - 1] == list[start + 99];
  }

  /** One request of the walk. */
  lemma WalkStep(server: Server, maxPages: nat, pages: nat, after: Option<nat>, seen: set<nat>, rows: seq<Row>,
      page: Page)
    requires page == server(pages, after) && Check(pages + 1, maxPages, seen, page.rows, after).None?
    ensures WalkFrom(server, maxPages, pages, after, seen, rows) ==
            if page.hasMore && page.rows != []
            then WalkFrom(server, maxPages, pages + 1, LastId(page.rows), seen + Ids(page.rows), rows + page.rows)
            else (Listed(Sort(rows + page.rows)), pages + 1)
  {
  }

  lemma HonestEnds(list: seq<Row>, start: nat)
    requires NewestFirst(list) && start <= |list| <= start + 100
    ensures Sort(list[..start] + PageAt(list, start).rows) == Reverse(list)
  {
    assert list[..start] + list[start..|list|] == list;
    SortReverses(list);
  }

  function HonestWalk(list: seq<Row>, maxPages: nat, pages: nat, after: Option<nat>): (Listing, nat)
    requires DistinctIds(list) && (after.Some? ==> FindIndex(list, after.value).Some?)
  {
    var met := list[..StartOf(list, after)];
    WalkFrom(Honest(list), maxPages, pages, after, Ids(met), met)
  }

  /** The cursor an honest page leaves the walk with. */
  function NextCursor(list: seq<Row>, after: Option<nat>): Option<nat>
    requires after.Some? ==> FindIndex(list, after.value).Some?
  {
    LastId(PageAt(list, StartOf(list, after)).rows)
  }

  lemma NextStart(list: seq<Row>, after: Option<nat>)
    requires DistinctIds(list) && (after.Some? ==> FindIndex(list, after.value).Some?)
    requires StartOf(list, after) + 100 < |list|
    ensures NextCursor(list, after).Some? && FindIndex(list, NextCursor(list, after).value).Some?
    ensures StartOf(list, NextCursor(list, after)) == StartOf(list, after) + 100
  {
    HonestMoves(list, StartOf(list, after));
  }

  lemma HonestStep(list: seq<Row>, maxPages: nat, pages: nat, after: Option<nat>)
    requires DistinctIds(list) && (after.Some? ==> FindIndex(list, after.value).Some?)
    requires pages < maxPages && StartOf(list, after) + 100 < |list|
    requires var next := NextCursor(list, after); next.Some? && FindIndex(list, next.value).Some?
    ensures HonestWalk(list, maxPages, pages, after) == HonestWalk(list, maxPages, pages + 1, NextCursor(list, after))
  {
    var start := StartOf(list, after);
    var page := PageAt(list, start);
    HonestPage(list, pages, after);
    HonestPasses(list, start, after, pages + 1, maxPages);
    HonestMoves(list, start);
    WalkStep(Honest(list), maxPages, pages, after, Ids(list[..start]), list[..start], page);
  }

  lemma HonestStops(list: seq<Row>, maxPages: nat, pages: nat, after: Option<nat>)
    requires NewestFirst(list) && DistinctIds(list) && (after.Some? ==> FindIndex(list, after.value).Some?)
    requires StartOf(list, after) == 0 || StartOf(list, after) < |list|
    requires pages == maxPages || (pages < maxPages && |list| <= StartOf(list, after) + 100)
    ensures HonestWalk(list, maxPages, pages, after)
            == (if pages == maxPages then Raised(TooManyPages) else Listed(Reverse(list)), pages + 1)
  {
    var start := StartOf(list, after);
    var page := PageAt(list, start);
    HonestPage(list, pages, after);
    HonestPasses(list, start, after, pages + 1, maxPages);
    if pages < maxPages {
      WalkStep(Honest(list), maxPages, pages, after, Ids(list[..start]), list[..start], page);
      HonestEnds(list, start);
    }
  }

  /** Where a walk over a list's pages ends that has taken `pages` and has `left` to go. */
  function Ends(list: seq<Row>, maxPages: nat, pages: nat, left: nat): (Listing, nat)
  {
    if pages + left <= maxPages then (Listed(Reverse(list)), pages + left) else (Raised(TooManyPages), maxPages + 1)
  }

  lemma EndsLast(list: seq<Row>, maxPages: nat, pages: nat, rows: nat)
    requires pages == maxPages || (pages < maxPages && rows <= 100)
    ensures Ends(list, maxPages, pages, PagesLeft(rows))
            == (if pages == maxPages then Raised(TooManyPages) else Listed(Reverse(list)), pages + 1)
  {
    assert PagesLeft(rows) >= 1;
  }

  lemma EndsLater(list: seq<Row>, maxPages: nat, pages: nat, rows: nat)
    requires rows > 100
    ensures Ends(list, maxPages, pages, PagesLeft(rows)) == Ends(list, maxPages, pages + 1, PagesLeft(rows - 100))
  {
  }

  /** The walk from a cursor ends as the pages still to come say. */
  ghost predicate WalksOut(list: seq<Row>, maxPages: nat, pages: nat, after: Option<nat>)
    requires DistinctIds(list) && (after.Some? ==> FindIndex(list, after.value).Some?)
  {
    HonestWalk(list, maxPages, pages, after)
    == Ends(list, maxPages, pages, PagesLeft(|list| - StartOf(list, after)))
  }

  lemma WalksOn(list: seq<Row>, maxPages: nat, pages: nat, after: Option<nat>)
    requires DistinctIds(list) && (after.Some? ==> FindIndex(list, after.value).Some?)
    requires pages < maxPages && StartOf(list, after) + 100 < |list|
    requires var next := NextCursor(list, after);
             next.Some? && FindIndex(list, next.value).Some? && WalksOut(list, maxPages, pages + 1, next)
    ensures WalksOut(list, maxPages, pages, after)
  {
    NextStart(list, after);
    HonestStep(list, maxPages, pages, after);
    EndsLater(list, maxPages, pages, |list| - StartOf(list, after));
  }

  lemma {:induction false} HonestFrom(list: seq<Row>, maxPages: nat, pages: nat, after: Option<nat>)
    requires NewestFirst(list) && DistinctIds(list) && (after.Some? ==> FindIndex(list, after.value).Some?)
    requires (StartOf(list, after) == 0 || StartOf(list, after) < |list|) && pages <= maxPages
    ensures WalksOut(list, maxPages, pages, after)
    decreases maxPages - pages
  {
    if pages < maxPages && StartOf(list, after) + 100 < |list| {
      NextStart(list, after);
      HonestFrom(list, maxPages, pages + 1, NextCursor(list, after));
      WalksOn(list, maxPages, pages, after);
    } else {
      HonestStops(list, maxPages, pages, after);
      EndsLast(list, maxPages, pages, |list| - StartOf(list, after));
    }
  }

  /**
   * Against a server that pages like the list, the walk never raises and
   * returns every row once, oldest first, exactly when the list fits in
   * maxPages pages of 100.
   */
  lemma HonestServer(list: seq<Row>, maxPages: nat)
    requires NewestFirst(list) && DistinctIds(list) && maxPages > 0
    ensures Walk(Honest(list), maxPages).0 ==
            if |list| <= 100 * maxPages then Listed(Reverse(list)) else Raised(TooManyPages)
  {
    assert list[..0] == [] && Ids(list[..0]) == {};
    HonestFrom(list, maxPages, 0, None);
    PagesLeftFits(|list|, maxPages - 1);
  }
}
