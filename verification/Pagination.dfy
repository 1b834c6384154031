/** Keyset paging over the operational table
    (internal/infrastructure/adapters/repositories/event_operational_repo.go,
    internal/domain/ports/output/pagination.go). */
module Pagination {
  import opened Events
  import opened CivilTime
  import opened CursorCodec

  const DEFAULT_PAGE_SIZE := 50
  const MAX_PAGE_SIZE := 200

  function NormalizeLimit(limit: int): (n: nat)
    ensures 1 <= n <= MAX_PAGE_SIZE
    ensures 1 <= limit <= MAX_PAGE_SIZE ==> n == limit
    ensures limit <= 0 ==> n == 50
    ensures limit > 200 ==> n == 200
  {
    if limit <= 0 then DEFAULT_PAGE_SIZE else if limit > MAX_PAGE_SIZE then MAX_PAGE_SIZE else limit
  }

  // ---- ORDER BY created_at DESC, id DESC ----

  /** a comes before b in the listing. */
  predicate Newer(a: PageCursor, b: PageCursor) {
    a.createdAt > b.createdAt || (a.createdAt == b.createdAt && a.id > b.id)
  }

  function Position(r: EventRow): PageCursor { PageCursor(r.createdAt, r.id) }

  /** The id is the primary key. */
  ghost predicate UniqueIds(table: set<EventRow>) {
    forall a, b :: a in table && b in table && a.id == b.id ==> a == b
  }

  ghost predicate Listed(rows: seq<EventRow>) {
    forall i, j :: 0 <= i < j < |rows| ==> Newer(Position(rows[i]), Position(rows[j]))
  }

  ghost function Elements(rows: seq<EventRow>): set<EventRow> { set r | r in rows }

  ghost predicate Newest(m: EventRow, table: set<EventRow>) {
    m in table && forall r :: r in table && r != m ==> Newer(Position(m), Position(r))
  }

  lemma {:induction false} NewestExists(table: set<EventRow>)
    requires table != {} && UniqueIds(table)
    ensures exists m :: Newest(m, table)
    decreases |table|
  {
    var x :| x in table;
    assert forall r :: r in table && r != x ==> r in table - {x};
    if table - {x} == {} {
      assert Newest(x, table);
    } else {
      NewestExists(table - {x});
      var m :| Newest(m, table - {x});
      assert Newest(if Newer(Position(x), Position(m)) then x else m, table);
    }
  }

  lemma NewestFirst(m: EventRow, table: set<EventRow>, rest: seq<EventRow>)
    requires Newest(m, table) && Listed(rest) && Elements(rest) == table - {m}
    ensures Listed([m] + rest) && Elements([m] + rest) == table
  {
    assert forall r :: r in rest ==> r in Elements(rest);
    forall r ensures r in [m] + rest <==> r in table {
      assert r in rest <==> r in Elements(rest);
    }
    var all := [m] + rest;
    forall i, j | 0 <= i < j < |all| ensures Newer(Position(all[i]), Position(all[j])) {
      assert all[j] == rest[j - 1];
      if i == 0 {
        assert rest[j - 1] in Elements(rest);
      } else {
        assert all[i] == rest[i - 1];
      }
    }
  }

  /** The table in listing order. */
  ghost function Sorted(table: set<EventRow>): (rows: seq<EventRow>)
    requires UniqueIds(table)
    ensures Listed(rows) && Elements(rows) == table && |rows| == |table|
    decreases |table|
  {
    if table == {} then []
    else
      NewestExists(table);
      var m :| Newest(m, table);
      var rest := Sorted(table - {m});
      NewestFirst(m, table, rest);
      [m] + rest
  }

  /** A set of rows has only one listing. */
  lemma {:induction false} ListingUnique(a: seq<EventRow>, b: seq<EventRow>)
    requires Listed(a) && Listed(b) && Elements(a) == Elements(b)
    ensures a == b
    decreases |a|
  {
    assert forall r :: r in a <==> r in Elements(a);
    assert forall r :: r in b <==> r in Elements(b);
    assert b != [] ==> b[0] in b;
    if a != [] {
      assert a[0] in b && b[0] in a;
      FirstIsNewest(a, b[0]);
      FirstIsNewest(b, a[0]);
      assert Elements(a[1..]) == Elements(a) - {a[0]} by { TailElements(a); }
      assert Elements(b[1..]) == Elements(b) - {b[0]} by { TailElements(b); }
      ListingUnique(a[1..], b[1..]);
    }
  }

  lemma FirstIsNewest(a: seq<EventRow>, r: EventRow)
    requires Listed(a) && r in a
    ensures r == a[0] || Newer(Position(a[0]), Position(r))
  {
  }

  lemma TailElements(a: seq<EventRow>)
    requires Listed(a) && a != []
    ensures Elements(a[1..]) == Elements(a) - {a[0]}
  {
    forall r | r in a && r != a[0] ensures r in a[1..] {
      var i :| 0 <= i < |a| && a[i] == r;
      assert a[1..][i - 1] == r;
    }
  }

  // ---- Queries ----

  /** The rows a query sees: all, or those of one event type. */
  datatype Filter = Everything | OfType(eventType: string)

  predicate Matches(f: Filter, r: EventRow) {
    f == Everything || r.eventType == f.eventType
  }

  /** Matching rows strictly after the cursor. */
  ghost function Remaining(table: set<EventRow>, f: Filter, cursor: Option<PageCursor>): set<EventRow> {
    set r | r in table && Matches(f, r) && (cursor.None? || Newer(cursor.value, Position(r)))
  }

  /** The query with LIMIT n. */
  ghost function Fetch(table: set<EventRow>, f: Filter, cursor: Option<PageCursor>, n: nat): (rows: seq<EventRow>)
    requires UniqueIds(table)
  {
    var all := Sorted(Remaining(table, f, cursor));
    if |all| <= n then all else all[..n]
  }

  /** last is the row the next cursor is made from, None on a final page. */
  datatype Page = Page(items: seq<EventRow>, last: Option<EventRow>, count: nat)

  /** The next_cursor field of the response. */
  function NextCursor(page: Page): string {
    if page.last.None? then "" else EncodeCursor(page.last.value.createdAt, page.last.value.id)
  }

  /** A page is a first part of what remains; it has a next cursor exactly when something was left out,
      and that cursor names its last row. */
  ghost predicate IsPage(table: set<EventRow>, f: Filter, cursor: Option<PageCursor>, limit: int, page: Page)
    requires UniqueIds(table)
  {
    IsCut(Sorted(Remaining(table, f, cursor)), NormalizeLimit(limit), page)
  }

  ghost predicate IsCut(all: seq<EventRow>, n: nat, page: Page)
    requires n > 0
  {
    && page.count == |page.items|
    && page.items == (if |all| <= n then all else all[..n])
    && page.last == (if |all| <= n then None else Some(all[n - 1]))
  }

  /** Asking for one row more tells whether rows are left. */
  lemma LookaheadIsEnough(all: seq<EventRow>, n: nat, fetched: seq<EventRow>, page: Page)
    requires n > 0 && fetched == if |all| <= n + 1 then all else all[..n + 1]
    requires page.items == if |fetched| > n then fetched[..n] else fetched
    requires page.last == if |fetched| > n then Some(page.items[n - 1]) else None
    requires page.count == |page.items|
    ensures IsCut(all, n, page)
  {
    assert |fetched| > n <==> |all| > n;
    assert |fetched| > n ==> fetched[..n] == all[..n];
  }

  /** The rows a query is about, in plain terms: those of the type, older than the cursor, and on a tie with a
      smaller id. */
  predicate Wanted(r: EventRow, f: Filter, cursor: Option<PageCursor>) {
    && (f.OfType? ==> r.eventType == f.eventType)
    && (cursor.Some? ==> r.createdAt < cursor.value.createdAt ||
                         (r.createdAt == cursor.value.createdAt && r.id < cursor.value.id))
  }

  /** The newest row first, and the greater id first among rows of one time. */
  predicate NewestToOldest(rows: seq<EventRow>) {
    forall i, j :: 0 <= i < j < |rows| ==>
      rows[i].createdAt >= rows[j].createdAt && (rows[i].createdAt == rows[j].createdAt ==> rows[i].id > rows[j].id)
  }

  lemma PageHoldsWanted(table: set<EventRow>, f: Filter, cursor: Option<PageCursor>, limit: int, page: Page)
    requires UniqueIds(table) && IsPage(table, f, cursor, limit, page)
    ensures NewestToOldest(page.items)
    ensures forall r :: r in page.items ==> r in table && Wanted(r, f, cursor)
    ensures page.last == None ==> forall r :: r in table && Wanted(r, f, cursor) ==> r in page.items
    ensures page.last.Some? ==>
              forall r :: r in table && Wanted(r, f, cursor) ==>
                (r in page.items <==> !Wanted(r, f, Some(PageCursor(page.last.value.createdAt, page.last.value.id))))
  {
    PageFacts(table, f, cursor, limit, page);
    assert forall r :: r in page.items <==> r in Elements(page.items);
    forall r ensures r in Remaining(table, f, cursor) <==> r in table && Wanted(r, f, cursor) {
    }
    if page.last.Some? {
      forall r | r in Remaining(table, f, cursor)
        ensures r in page.items <==> !Newer(Position(page.last.value), Position(r))
      {
        LeftForLater(table, f, cursor, limit, page, r);
      }
    }
  }

  /** FindAll and FindByEventType: fetched is the database's answer to the query with one row more than
      the page holds. */
  method FindPage(
    ghost table: set<EventRow>, ghost f: Filter, ghost cursor: Option<PageCursor>, limit: int,
    fetched: seq<EventRow>)
    returns (page: Page)
    requires UniqueIds(table)
    requires fetched == Fetch(table, f, cursor, NormalizeLimit(limit) + 1)
    ensures IsPage(table, f, cursor, limit, page)
    ensures NewestToOldest(page.items) && page.count == |page.items| <= NormalizeLimit(limit)
    ensures forall r :: r in page.items ==> r in table && Wanted(r, f, cursor)
    ensures page.last == None ==> forall r :: r in table && Wanted(r, f, cursor) ==> r in page.items
    ensures page.last.Some? ==> |page.items| == NormalizeLimit(limit) && page.last.value == page.items[|page.items| - 1]
  {
    var n := NormalizeLimit(limit);
    ghost var all := Sorted(Remaining(table, f, cursor));
    page := BuildPage(all, n, fetched);
    PageHoldsWanted(table, f, cursor, limit, page);
  }

  /** What is done with the fetched rows. */
  method BuildPage(ghost all: seq<EventRow>, n: nat, fetched: seq<EventRow>) returns (page: Page)
    requires n > 0 && fetched == if |all| <= n + 1 then all else all[..n + 1]
    ensures IsCut(all, n, page)
  {
    var hasMore := |fetched| > n;
    var models := if hasMore then fetched[..n] else fetched;
    var items: seq<EventRow> := [];
    for i := 0 to |models|
      invariant items == models[..i]
    {
      items := items + [models[i]];
    }
    var last := None;
    if hasMore && |models| > 0 {
      last := Some(models[|models| - 1]);
    }
    page := Page(items, last, |items|);
    LookaheadIsEnough(all, n, fetched, page);
  }

  // ---- Following cursors ----

  /** One request of a client: the table as it is then, and the limit it asks for. */
  datatype Visit = Visit(table: set<EventRow>, limit: int)

  /** pages[i] answers visits[i], the first after the given position and each later one after the last
      row of the page before it. */
  ghost predicate Followed(f: Filter, cursor: Option<PageCursor>, visits: seq<Visit>, pages: seq<Page>)
    decreases |pages|
  {
    |visits| == |pages| &&
    (pages != [] ==>
      UniqueIds(visits[0].table) &&
      IsPage(visits[0].table, f, cursor, visits[0].limit, pages[0]) &&
      (|pages| > 1 ==>
        pages[0].last.Some? &&
        Followed(f, Some(Position(pages[0].last.value)), visits[1..], pages[1..])))
  }

  function Concat(pages: seq<Page>): seq<EventRow> {
    if pages == [] then [] else pages[0].items + Concat(pages[1..])
  }

  ghost predicate AfterCursor(cursor: Option<PageCursor>, rows: seq<EventRow>) {
    forall r :: r in rows ==> cursor.None? || Newer(cursor.value, Position(r))
  }

  /** The rows of a listing after its n-th row. */
  lemma ListingSplit(all: seq<EventRow>, n: nat, r: EventRow)
    requires Listed(all) && 0 < n <= |all| && r in all
    ensures r in all[..n] <==> !Newer(Position(all[n - 1]), Position(r))
  {
    var i :| 0 <= i < |all| && all[i] == r;
    if i < n {
      assert all[..n][i] == r;
    }
    if r in all[..n] {
      var j :| 0 <= j < n && all[..n][j] == r;
      assert all[j] == r;
    }
  }

  lemma CutFacts(all: seq<EventRow>, n: nat, page: Page)
    requires n > 0 && IsCut(all, n, page) && Listed(all)
    ensures Listed(page.items) && Elements(page.items) <= Elements(all)
    ensures page.last == None ==> page.items == all
    ensures page.last.Some? ==> page.items != [] && page.last.value == page.items[|page.items| - 1]
  {
    assert page.items == all[..|page.items|];
    assert forall r :: r in page.items ==> r in all;
  }

  lemma PageFacts(table: set<EventRow>, f: Filter, cursor: Option<PageCursor>, limit: int, page: Page)
    requires UniqueIds(table) && IsPage(table, f, cursor, limit, page)
    ensures Listed(page.items)
    ensures Elements(page.items) <= Remaining(table, f, cursor)
    ensures page.last == None ==> Elements(page.items) == Remaining(table, f, cursor)
    ensures page.last.Some? ==> page.items != [] && page.last.value == page.items[|page.items| - 1]
  {
    CutFacts(Sorted(Remaining(table, f, cursor)), NormalizeLimit(limit), page);
  }

  /** What is not on a page and remains comes after the page's last row. */
  lemma LeftForLater(table: set<EventRow>, f: Filter, cursor: Option<PageCursor>, limit: int, page: Page, r: EventRow)
    requires UniqueIds(table) && IsPage(table, f, cursor, limit, page) && page.last.Some?
    requires r in Remaining(table, f, cursor)
    ensures r in page.items <==> !Newer(Position(page.last.value), Position(r))
  {
    var all := Sorted(Remaining(table, f, cursor));
    var n := |page.items|;
    assert page.items == all[..n];
    assert r in Elements(all);
    ListingSplit(all, n, r);
  }

  predicate Complete(pages: seq<Page>) {
    pages != [] && pages[|pages| - 1].last == None
  }

  lemma ListedAppend(a: seq<EventRow>, b: seq<EventRow>)
    requires Listed(a) && Listed(b) && a != [] && AfterCursor(Some(Position(a[|a| - 1])), b)
    ensures Listed(a + b)
  {
    var all := a + b;
    forall i, j | 0 <= i < j < |all| ensures Newer(Position(all[i]), Position(all[j])) {
      if i < |a| <= j {
        assert all[j] == b[j - |a|] && b[j - |a|] in b;
      }
    }
  }

  lemma AfterAppend(cursor: Option<PageCursor>, a: seq<EventRow>, b: seq<EventRow>)
    requires AfterCursor(cursor, a) && a != [] && AfterCursor(Some(Position(a[|a| - 1])), b)
    ensures AfterCursor(cursor, a + b)
  {
    assert a[|a| - 1] in a;
  }

  /** Whatever is inserted or deleted between the requests, the rows seen are in strict listing order,
      so no row and no position is seen twice, and they all lie after the cursor. */
  lemma {:induction false} WalkIsListed(f: Filter, cursor: Option<PageCursor>, visits: seq<Visit>, pages: seq<Page>)
    requires Followed(f, cursor, visits, pages) && pages != []
    ensures Listed(Concat(pages)) && AfterCursor(cursor, Concat(pages))
    decreases |pages|
  {
    PageFacts(visits[0].table, f, cursor, visits[0].limit, pages[0]);
    var items, rest := pages[0].items, Concat(pages[1..]);
    assert AfterCursor(cursor, items) by {
      assert forall r :: r in items ==> r in Elements(items);
    }
    if |pages| == 1 {
      assert Concat(pages) == items;
    } else {
      WalkIsListed(f, Some(Position(pages[0].last.value)), visits[1..], pages[1..]);
      ListedAppend(items, rest);
      AfterAppend(cursor, items, rest);
    }
  }

  ghost predicate AlwaysRemains(f: Filter, cursor: Option<PageCursor>, visits: seq<Visit>, r: EventRow) {
    forall v :: v in visits ==> r in Remaining(v.table, f, cursor)
  }

  lemma RemainsFurther(f: Filter, cursor: Option<PageCursor>, next: PageCursor, visits: seq<Visit>, r: EventRow)
    requires AlwaysRemains(f, cursor, visits, r) && Newer(next, Position(r)) && visits != []
    ensures AlwaysRemains(f, Some(next), visits[1..], r)
  {
    assert forall v :: v in visits[1..] ==> v in visits;
  }

  /** A matching row that is in the table at every request of a completed walk is seen. */
  lemma {:induction false} StableRowsAreSeen(
    f: Filter, cursor: Option<PageCursor>, visits: seq<Visit>, pages: seq<Page>, r: EventRow)
    requires Followed(f, cursor, visits, pages) && AlwaysRemains(f, cursor, visits, r)
    ensures Complete(pages) ==> r in Concat(pages)
    decreases |pages|
  {
    if pages == [] || !Complete(pages) {
      return;
    }
    assert visits[0] in visits;
    if |pages| == 1 {
      PageFacts(visits[0].table, f, cursor, visits[0].limit, pages[0]);
      assert r in Elements(pages[0].items);
    } else if r !in pages[0].items {
      var next := Position(pages[0].last.value);
      LeftForLater(visits[0].table, f, cursor, visits[0].limit, pages[0], r);
      RemainsFurther(f, cursor, next, visits, r);
      StableRowsAreSeen(f, Some(next), visits[1..], pages[1..], r);
    }
  }

  /** Every row seen matched the filter and was in the table of some request. */
  lemma {:induction false} SeenRowsWereThere(
    f: Filter, cursor: Option<PageCursor>, visits: seq<Visit>, pages: seq<Page>, r: EventRow)
    requires Followed(f, cursor, visits, pages) && r in Concat(pages)
    ensures exists v :: v in visits && r in Remaining(v.table, f, cursor)
    decreases |pages|
  {
    assert visits[0] in visits;
    PageFacts(visits[0].table, f, cursor, visits[0].limit, pages[0]);
    if r in pages[0].items {
      assert r in Elements(pages[0].items);
    } else {
      assert r in Concat(pages[1..]) && |pages| > 1;
      var next := Some(Position(pages[0].last.value));
      SeenRowsWereThere(f, next, visits[1..], pages[1..], r);
      var v :| v in visits[1..] && r in Remaining(v.table, f, next);
      WalkIsListed(f, cursor, visits, pages);
      assert v in visits;
    }
  }

  /** Paging is complete: following the cursors from the start over an unchanged table yields exactly
      the matching rows, in listing order, each once. */
  lemma PagingIsComplete(f: Filter, table: set<EventRow>, visits: seq<Visit>, pages: seq<Page>)
    requires UniqueIds(table)
    requires forall v :: v in visits ==> v.table == table
    requires Followed(f, None, visits, pages) && Complete(pages)
    ensures Concat(pages) == Sorted(Remaining(table, f, None))
    ensures NewestToOldest(Concat(pages))
    ensures forall r :: r in Concat(pages) <==> r in table && Wanted(r, f, None)
  {
    var rows, all := Concat(pages), Remaining(table, f, None);
    WalkIsListed(f, None, visits, pages);
    forall r ensures r in Elements(rows) <==> r in all {
      if r in all {
        StableRowsAreSeen(f, None, visits, pages, r);
      }
      if r in rows {
        SeenRowsWereThere(f, None, visits, pages, r);
      }
    }
    ListingUnique(rows, Sorted(all));
    forall r ensures r in rows <==> r in table && Wanted(r, f, None) {
      assert r in rows <==> r in all;
    }
  }

  function Capacity(visits: seq<Visit>): nat {
    if visits == [] then 0 else NormalizeLimit(visits[0].limit) + Capacity(visits[1..])
  }

  /** What remained is on the page or remains after it. */
  lemma PageOrLater(table: set<EventRow>, f: Filter, cursor: Option<PageCursor>, limit: int, page: Page, r: EventRow)
    requires UniqueIds(table) && IsPage(table, f, cursor, limit, page) && page.last.Some?
    ensures var later := Remaining(table, f, Some(Position(page.last.value)));
            (r in Remaining(table, f, cursor) <==> r in page.items || r in later) && !(r in page.items && r in later)
  {
    PageFacts(table, f, cursor, limit, page);
    assert page.last.value in page.items;
    assert forall x :: x in page.items ==> x in Elements(page.items);
    if r in Remaining(table, f, cursor) {
      LeftForLater(table, f, cursor, limit, page, r);
    }
  }

  lemma SplitSize(all: set<EventRow>, items: seq<EventRow>, later: set<EventRow>)
    requires Listed(items)
    requires forall r :: (r in all <==> r in items || r in later) && !(r in items && r in later)
    ensures |all| == |items| + |later|
  {
    ListedIsDistinct(items);
    assert all == Elements(items) + later;
    assert Elements(items) !! later;
  }

  lemma RemainingAfterPage(table: set<EventRow>, f: Filter, cursor: Option<PageCursor>, limit: int, page: Page)
    requires UniqueIds(table) && IsPage(table, f, cursor, limit, page) && page.last.Some?
    ensures |Remaining(table, f, cursor)| ==
            NormalizeLimit(limit) + |Remaining(table, f, Some(Position(page.last.value)))|
  {
    var rest, later := Remaining(table, f, cursor), Remaining(table, f, Some(Position(page.last.value)));
    PageFacts(table, f, cursor, limit, page);
    forall r ensures (r in rest <==> r in page.items || r in later) && !(r in page.items && r in later) {
      PageOrLater(table, f, cursor, limit, page, r);
    }
    SplitSize(rest, page.items, later);
  }

  lemma {:induction false} ListedIsDistinct(rows: seq<EventRow>)
    requires Listed(rows)
    ensures |Elements(rows)| == |rows|
    decreases |rows|
  {
    if rows != [] {
      TailElements(rows);
      ListedIsDistinct(rows[1..]);
      assert rows[0] in Elements(rows);
    }
  }

  /** Over an unchanged table the walk has no next cursor exactly once the limits asked for add up to
      the number of rows; every page asks for at least one row, so the walk ends. */
  lemma {:induction false} WalkEnds(
    f: Filter, table: set<EventRow>, cursor: Option<PageCursor>, visits: seq<Visit>, pages: seq<Page>)
    requires UniqueIds(table) && pages != []
    requires forall v :: v in visits ==> v.table == table
    requires Followed(f, cursor, visits, pages)
    ensures Complete(pages) <==> |Remaining(table, f, cursor)| <= Capacity(visits)
    ensures Capacity(visits) >= |pages|
    decreases |pages|
  {
    assert visits[0] in visits;
    if |pages| == 1 {
      assert visits[1..] == [];
    } else {
      assert forall v :: v in visits[1..] ==> v in visits;
      RemainingAfterPage(table, f, cursor, visits[0].limit, pages[0]);
      WalkEnds(f, table, Some(Position(pages[0].last.value)), visits[1..], pages[1..]);
    }
  }

  // ---- Cursors as strings ----

  /** The handler's reading of the cursor parameter; None is a rejected request. */
  function ReadCursor(s: string): Option<Option<PageCursor>> {
    if s == "" then Some(None)
    else match DecodeCursor(s) case Ok(c) => Some(Some(c)) case Err(_) => None
  }

  /** As Followed, but every later request carries the next_cursor string of the page before it. */
  ghost predicate FollowedByStrings(f: Filter, after: string, visits: seq<Visit>, pages: seq<Page>)
    decreases |pages|
  {
    |visits| == |pages| &&
    (pages != [] ==>
      UniqueIds(visits[0].table) &&
      ReadCursor(after).Some? &&
      IsPage(visits[0].table, f, ReadCursor(after).value, visits[0].limit, pages[0]) &&
      (|pages| > 1 ==>
        NextCursor(pages[0]) != "" && FollowedByStrings(f, NextCursor(pages[0]), visits[1..], pages[1..])))
  }

  lemma NextCursorReads(page: Page)
    requires page.last.Some? ==> CivilOf(page.last.value.createdAt).year <= 9999
    ensures NextCursor(page) == "" <==> page.last == None
    ensures page.last.Some? ==> ReadCursor(NextCursor(page)) == Some(Some(Position(page.last.value)))
  {
    if page.last.Some? {
      var r := page.last.value;
      RawIsOctets(r.createdAt, r.id);
      assert RawCursor(r.createdAt, r.id) != "";
      CursorRoundTrip(r.createdAt, r.id);
    }
  }

  ghost predicate DatedBefore10000(visits: seq<Visit>) {
    forall v, r :: v in visits && r in v.table ==> CivilOf(r.createdAt).year <= 9999
  }

  /** Paging through cursor strings is paging through positions, for rows dated before year 10000; a string
      that does not read as a position gets no page. */
  lemma {:induction false} StringsFollowPositions(f: Filter, after: string, visits: seq<Visit>, pages: seq<Page>)
    requires DatedBefore10000(visits)
    ensures FollowedByStrings(f, after, visits, pages) <==>
            |visits| == |pages| &&
            (pages != [] ==> ReadCursor(after).Some? && Followed(f, ReadCursor(after).value, visits, pages))
    decreases |pages|
  {
    if |visits| == |pages| && |pages| > 1 && ReadCursor(after).Some? && UniqueIds(visits[0].table) {
      var cursor := ReadCursor(after).value;
      if IsPage(visits[0].table, f, cursor, visits[0].limit, pages[0]) {
        assert visits[0] in visits;
        assert forall v :: v in visits[1..] ==> v in visits;
        PageFacts(visits[0].table, f, cursor, visits[0].limit, pages[0]);
        if pages[0].last.Some? {
          assert pages[0].last.value in Elements(pages[0].items);
        }
        NextCursorReads(pages[0]);
        StringsFollowPositions(f, NextCursor(pages[0]), visits[1..], pages[1..]);
      }
    }
  }
}
