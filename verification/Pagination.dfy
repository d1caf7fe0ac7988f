/**
 Keyset pagination, newest first: the coin history of a user and the admin audit log. A page is
 fetched with one row to spare, and the last row shown becomes the cursor of the next page.
 */
module Pagination {
  import opened Common

  datatype Row = Row(createdAt: int, id: nat)

  const DEFAULT_LIMIT := 50
  const MAX_LIMIT: Limit := 100
  const AUDIT_MAX_LIMIT: Limit := 500

  /** `next` is the (createdAt, id) pair of the last row shown. */
  datatype Page = Page(items: seq<Row>, next: Option<Row>)

  /** Sorts before, in the order createdAt descending, then id descending. */
  predicate Above(a: Row, b: Row) { a.createdAt > b.createdAt || (a.createdAt == b.createdAt && a.id > b.id) }

  ghost predicate Descending(s: seq<Row>) { forall i, j | 0 <= i < j < |s| :: Above(s[i], s[j]) }

  /** The rows strictly below the cursor; all of them when there is none. */
  function Remaining(db: set<Row>, cursor: Option<Row>): set<Row>
  {
    set r | r in db && (cursor.None? || r.createdAt < cursor.value.createdAt
        || (r.createdAt == cursor.value.createdAt && r.id < cursor.value.id))
  }

  // ----- the reference: the whole list, sorted -----

  predicate IsTop(db: set<Row>, m: Row) { m in db && forall r <- db :: r == m || Above(m, r) }

  lemma {:induction false} TopExists(db: set<Row>)
    requires db != {}
    ensures exists m :: IsTop(db, m)
  {
    var x :| x in db;
    var rest := db - {x};
    assert db == rest + {x};
    if rest == {} {
      assert IsTop(db, x);
    } else {
      TopExists(rest);
      var m :| IsTop(rest, m);
      if Above(x, m) {
        assert forall r <- rest :: Above(x, r);
        assert IsTop(db, x);
      } else {
        assert IsTop(db, m);
      }
    }
  }

  function Top(db: set<Row>): (m: Row)
    requires db != {}
    ensures IsTop(db, m)
  {
    TopExists(db);
    var m :| IsTop(db, m);
    m
  }

  /** Every row once, newest first. */
  function Desc(db: set<Row>): (s: seq<Row>)
    ensures |s| == |db|
  {
    if db == {} then [] else [Top(db)] + Desc(db - {Top(db)})
  }

  lemma {:induction false} DescHolds(db: set<Row>, r: Row)
    ensures r in Desc(db) <==> r in db
  {
    if db != {} { DescHolds(db - {Top(db)}, r); }
  }

  lemma {:induction false} DescIsDescending(db: set<Row>)
    ensures Descending(Desc(db))
  {
    if db != {} {
      var m := Top(db);
      var rest := Desc(db - {m});
      DescIsDescending(db - {m});
      forall j | 0 <= j < |rest| ensures Above(m, rest[j]) { DescHolds(db - {m}, rest[j]); }
      assert Desc(db) == [m] + rest;
    }
  }

  lemma DescIsSorted(db: set<Row>)
    ensures Descending(Desc(db)) && forall r :: r in Desc(db) <==> r in db
  {
    DescIsDescending(db);
    forall r ensures r in Desc(db) <==> r in db { DescHolds(db, r); }
  }

  lemma TailHolds(s: seq<Row>, r: Row)
    requires s != [] && Descending(s)
    ensures r in s[1..] <==> r in s && r != s[0]
  {
    if r in s && r != s[0] {
      var k :| 0 <= k < |s| && s[k] == r;
      assert s[1..][k - 1] == r;
    }
  }

  lemma SameHead(s: seq<Row>, t: seq<Row>)
    requires Descending(s) && Descending(t) && s != [] && t != [] && s[0] in t && t[0] in s
    ensures s[0] == t[0]
  {
    var i :| 0 <= i < |t| && t[i] == s[0];
    var j :| 0 <= j < |s| && s[j] == t[0];
  }

  /** The sorted list is the only descending sequence with these rows. */
  lemma {:induction false} DescIsUnique(s: seq<Row>, t: seq<Row>)
    requires Descending(s) && Descending(t) && forall r :: r in s <==> r in t
    ensures s == t
  {
    assert s != [] ==> s[0] in s;
    assert t != [] ==> t[0] in t;
    if s != [] && t != [] {
      SameHead(s, t);
      forall r ensures r in s[1..] <==> r in t[1..] {
        TailHolds(s, r);
        TailHolds(t, r);
      }
      DescIsUnique(s[1..], t[1..]);
      assert s == [s[0]] + s[1..] && t == [t[0]] + t[1..];
    }
  }

  // ----- one page -----

  function Clamp(limit: int, max: Limit): Limit
  {
    var capped := if limit < max then limit else max;
    if capped < 1 then 1 else capped
  }

  function Take(s: seq<Row>, n: nat): seq<Row> { if |s| <= n then s else s[..n] }

  type Limit = l: int | l >= 1 witness 1

  /** The page of at most `limit` rows below the cursor. */
  function PageOf(db: set<Row>, cursor: Option<Row>, limit: Limit): (p: Page)
  {
    var all := Desc(Remaining(db, cursor));
    if |all| > limit then Page(all[..limit], Some(all[limit - 1])) else Page(all, None)
  }

  /** The query both services make: fetch `limit + 1` rows, show `limit`. */
  method FetchPage(db: set<Row>, cursor: Option<Row>, limit: Limit) returns (p: Page)
    ensures p == PageOf(db, cursor, limit)
  {
    var fetched := Take(Desc(Remaining(db, cursor)), limit + 1);
    var hasMore := |fetched| > limit;
    var items := if hasMore then fetched[..limit] else fetched;
    p := Page(items, None);
    if hasMore {
      p := p.(next := Some(items[|items| - 1]));
    }
  }

  /** The page shows the first `n` of the rows below the cursor, and has a cursor exactly when there are more. */
  ghost predicate ShowsFirst(p: Page, db: set<Row>, cursor: Option<Row>, n: int)
  {
    var all := Desc(Remaining(db, cursor));
    && p.items <= all && |p.items| == (if |all| < n then |all| else n)
    && (p.next.Some? <==> |all| > n)
  }

  method ListTransactions(db: set<Row>, cursor: Option<Row>, limit: Option<int>) returns (p: Page)
    ensures p == PageOf(db, cursor, Clamp(if limit.Some? then limit.value else DEFAULT_LIMIT, MAX_LIMIT))
    ensures limit.None? ==> ShowsFirst(p, db, cursor, 50)
    ensures limit.Some? ==> ShowsFirst(p, db, cursor, if limit.value < 1 then 1 else if limit.value > 100 then 100
            else limit.value)
    ensures |p.items| <= 100
  {
    p := FetchPage(db, cursor, Clamp(if limit.Some? then limit.value else DEFAULT_LIMIT, MAX_LIMIT));
  }

  method ListAuditLogs(db: set<Row>, matches: Row -> bool, cursor: Option<Row>, limit: int) returns (p: Page)
    ensures p == PageOf((set r | r in db && matches(r)), cursor, Clamp(limit, AUDIT_MAX_LIMIT))
    ensures ShowsFirst(p, (set r | r in db && matches(r)), cursor, if limit < 1 then 1 else if limit > 500 then 500
            else limit)
    ensures |p.items| <= 500 && forall r <- p.items :: matches(r)
  {
    var q := set r | r in db && matches(r);
    p := FetchPage(q, cursor, Clamp(limit, AUDIT_MAX_LIMIT));
    forall r <- p.items ensures r in q { DescHolds(Remaining(q, cursor), r); }
  }

  // ----- the walk -----

  /** One request of the walk: what the collection holds when it is served, and the page size asked for. */
  datatype Fetch = Fetch(db: set<Row>, limit: Limit)

  /** What a client has after following cursors, and whether the last page had no cursor. */
  datatype Walked = Walked(rows: seq<Row>, pages: nat, finished: bool)

  function First(fs: seq<Fetch>, cursor: Option<Row>): Page
    requires fs != []
  {
    PageOf(fs[0].db, cursor, fs[0].limit)
  }

  /** Follows `next` from the cursor until it is absent, or until the fetches run out. */
  function Walk(fs: seq<Fetch>, cursor: Option<Row>): Walked
  {
    if fs == [] then Walked([], 0, false)
    else
      var p := First(fs, cursor);
      if p.next.None? then Walked(p.items, 1, true)
      else
        var w := Walk(fs[1..], p.next);
        Walked(p.items + w.rows, w.pages + 1, w.finished)
  }

  /** The cursor of a page is its last row. */
  lemma PageEndsAtCursor(db: set<Row>, cursor: Option<Row>, limit: Limit)
    requires PageOf(db, cursor, limit).next.Some?
    ensures var p := PageOf(db, cursor, limit);
            && p.next.value in Remaining(db, cursor)
            && (forall r <- p.items :: r in Remaining(db, cursor) && (r == p.next.value || Above(r, p.next.value)))
  {
    var all := Desc(Remaining(db, cursor));
    DescIsSorted(Remaining(db, cursor));
    assert all[limit - 1] in all;
  }

  lemma RestIsBelowCursor(db: set<Row>, cursor: Option<Row>, limit: Limit, r: Row)
    requires |Remaining(db, cursor)| > limit
    ensures var all := Desc(Remaining(db, cursor)); r in all[limit..] <==> r in Remaining(db, Some(all[limit - 1]))
  {
    var all := Desc(Remaining(db, cursor));
    DescIsSorted(Remaining(db, cursor));
    var last := all[limit - 1];
    assert last in all;
    if r in all[limit..] {
      assert r in all && Above(last, r);
    }
    if r in Remaining(db, Some(last)) {
      assert r in Remaining(db, cursor);
      var k :| 0 <= k < |all| && all[k] == r;
      assert k >= limit by { assert k < limit - 1 ==> Above(r, last); }
      assert all[limit..][k - limit] == r;
    }
  }

  /** A page and what remains after it are together what remained before it. */
  lemma PageSplits(db: set<Row>, cursor: Option<Row>, limit: Limit)
    requires PageOf(db, cursor, limit).next.Some?
    ensures var p := PageOf(db, cursor, limit);
            && |p.items| == limit
            && Desc(Remaining(db, cursor)) == p.items + Desc(Remaining(db, p.next))
  {
    var all := Desc(Remaining(db, cursor));
    var below := Remaining(db, Some(all[limit - 1]));
    forall r ensures r in all[limit..] <==> r in Desc(below) {
      RestIsBelowCursor(db, cursor, limit, r);
      DescHolds(below, r);
    }
    DescIsDescending(Remaining(db, cursor));
    DescIsDescending(below);
    DescIsUnique(all[limit..], Desc(below));
    assert all == all[..limit] + all[limit..];
  }

  /**
   A collection that does not change: the walk ends within one fetch per row (one at least) and
   yields the sorted list, whatever the page sizes.
   */
  lemma {:induction false} WalkYieldsSortedList(db: set<Row>, fs: seq<Fetch>, cursor: Option<Row>)
    requires forall f <- fs :: f.db == db
    requires |fs| >= 1 && |fs| >= |Remaining(db, cursor)|
    ensures Walk(fs, cursor).finished && Walk(fs, cursor).rows == Desc(Remaining(db, cursor))
    decreases |fs|
  {
    var p := First(fs, cursor);
    if p.next.Some? {
      PageSplits(db, cursor, fs[0].limit);
      WalkYieldsSortedList(db, fs[1..], p.next);
    }
  }

  /** `pages` is `n / limit` rounded up, and one when there are no rows. */
  predicate IsPageCount(pages: int, n: nat, limit: Limit)
  {
    if n == 0 then pages == 1 else (pages - 1) * limit < n <= pages * limit
  }

  lemma OnePageMore(pages: int, n: nat, limit: Limit)
    requires n > 0 && IsPageCount(pages, n, limit)
    ensures IsPageCount(pages + 1, n + limit, limit)
  {
  }

  lemma FullPageThenRest(db: set<Row>, fs: seq<Fetch>, cursor: Option<Row>, limit: Limit)
    requires fs != [] && fs[0] == Fetch(db, limit) && First(fs, cursor).next.Some?
    ensures Walk(fs, cursor).pages == Walk(fs[1..], First(fs, cursor).next).pages + 1
    ensures |Remaining(db, cursor)| == |Remaining(db, First(fs, cursor).next)| + limit
    ensures |Remaining(db, First(fs, cursor).next)| > 0
  {
    PageSplits(db, cursor, limit);
  }

  lemma LastPage(db: set<Row>, fs: seq<Fetch>, cursor: Option<Row>, limit: Limit)
    requires fs != [] && fs[0] == Fetch(db, limit) && First(fs, cursor).next.None?
    ensures IsPageCount(Walk(fs, cursor).pages, |Remaining(db, cursor)|, limit)
  {
    assert |Remaining(db, cursor)| <= limit;
  }

  /** With one page size every page but the last is full, so the number of pages is exact. */
  lemma {:induction false} PageCountIsExact(db: set<Row>, fs: seq<Fetch>, cursor: Option<Row>, limit: Limit)
    requires forall f <- fs :: f.db == db && f.limit == limit
    requires |fs| >= 1 && |fs| >= |Remaining(db, cursor)|
    ensures IsPageCount(Walk(fs, cursor).pages, |Remaining(db, cursor)|, limit)
    decreases |fs|
  {
    assert fs[0].db == db && fs[0].limit == limit;
    var p := First(fs, cursor);
    if p.next.Some? {
      FullPageThenRest(db, fs, cursor, limit);
      PageCountIsExact(db, fs[1..], p.next, limit);
      OnePageMore(Walk(fs[1..], p.next).pages, |Remaining(db, p.next)|, limit);
    } else {
      LastPage(db, fs, cursor, limit);
    }
  }

  // ----- a collection that changes during the walk -----

  /** Whatever is inserted or deleted meanwhile, the walk stays in order, so it shows no row twice. */
  lemma {:induction false} WalkIsDescending(fs: seq<Fetch>, cursor: Option<Row>)
    ensures Descending(Walk(fs, cursor).rows)
    ensures forall r <- Walk(fs, cursor).rows :: cursor.None? || Above(cursor.value, r)
    decreases |fs|
  {
    if fs != [] {
      DescIsSorted(Remaining(fs[0].db, cursor));
      var p := First(fs, cursor);
      if p.next.Some? {
        WalkIsDescending(fs[1..], p.next);
        PageEndsAtCursor(fs[0].db, cursor, fs[0].limit);
        DescendingConcat(p.items, Walk(fs[1..], p.next).rows, p.next.value);
      }
    }
  }

  lemma DescendingConcat(s: seq<Row>, t: seq<Row>, c: Row)
    requires Descending(s) && Descending(t)
    requires (forall r <- s :: r == c || Above(r, c)) && forall r <- t :: Above(c, r)
    ensures Descending(s + t)
  {
    forall i, j | 0 <= i < j < |s + t| ensures Above((s + t)[i], (s + t)[j]) {
      if i < |s| <= j { assert s[i] in s && t[j - |s|] in t; }
    }
  }

  /** Rows are added but never removed from one fetch to the next. */
  ghost predicate Growing(fs: seq<Fetch>) { forall i, j | 0 <= i <= j < |fs| :: fs[i].db <= fs[j].db }

  /** No row that was there when the walk began is skipped by a finished walk. */
  lemma {:induction false} NothingIsSkipped(fs: seq<Fetch>, cursor: Option<Row>, r: Row)
    requires Growing(fs) && fs != [] && Walk(fs, cursor).finished && r in Remaining(fs[0].db, cursor)
    ensures r in Walk(fs, cursor).rows
    decreases |fs|
  {
    DescHolds(Remaining(fs[0].db, cursor), r);
    var p := First(fs, cursor);
    if p.next.Some? && r !in p.items {
      PageSplits(fs[0].db, cursor, fs[0].limit);
      DescHolds(Remaining(fs[0].db, p.next), r);
      assert fs[0].db <= fs[1].db;
      NothingIsSkipped(fs[1..], p.next, r);
    }
  }

  /** Every change lands above the cursor that the client holds at that moment. */
  ghost predicate ChangesAboveCursor(fs: seq<Fetch>, cursor: Option<Row>)
  {
    |fs| > 1 && First(fs, cursor).next.Some? ==>
      var next := First(fs, cursor).next;
      Remaining(fs[1].db, next) == Remaining(fs[0].db, next) && ChangesAboveCursor(fs[1..], next)
  }

  /** Then a finished walk yields exactly the list as it was at its first fetch. */
  lemma {:induction false} ChangesAboveAreUnseen(fs: seq<Fetch>, cursor: Option<Row>)
    requires fs != [] && ChangesAboveCursor(fs, cursor) && Walk(fs, cursor).finished
    ensures Walk(fs, cursor).rows == Desc(Remaining(fs[0].db, cursor))
    decreases |fs|
  {
    var p := First(fs, cursor);
    if p.next.Some? {
      PageSplits(fs[0].db, cursor, fs[0].limit);
      ChangesAboveAreUnseen(fs[1..], p.next);
    }
  }

  /** The collection `d` holds `db` and rows that sort before all of `db`. */
  ghost predicate OnlyNewer(db: set<Row>, d: set<Row>) { db <= d && forall r <- d - db, q <- db :: Above(r, q) }

  lemma OnlyOldRowsBelow(db: set<Row>, d: set<Row>, c: Row)
    requires OnlyNewer(db, d) && c in db
    ensures Remaining(d, Some(c)) == Remaining(db, Some(c))
  {
    forall r | r in Remaining(d, Some(c)) ensures r in db {
      assert r in db || r in d - db;
    }
  }

  lemma {:induction false} NewerRowsLandAbove(db: set<Row>, fs: seq<Fetch>, cursor: Option<Row>)
    requires fs != [] && (forall f <- fs :: OnlyNewer(db, f.db)) && Remaining(fs[0].db, cursor) <= db
    ensures ChangesAboveCursor(fs, cursor)
    decreases |fs|
  {
    var next := First(fs, cursor).next;
    if |fs| > 1 && next.Some? {
      PageEndsAtCursor(fs[0].db, cursor, fs[0].limit);
      OnlyOldRowsBelow(db, fs[0].db, next.value);
      OnlyOldRowsBelow(db, fs[1].db, next.value);
      NewerRowsLandAbove(db, fs[1..], next);
    }
  }

  /** Rows that arrive during the walk with later timestamps never appear in it, and disturb nothing. */
  lemma NewerRowsAreUnseen(fs: seq<Fetch>)
    requires fs != [] && (forall f <- fs :: OnlyNewer(fs[0].db, f.db)) && Walk(fs, None).finished
    ensures Walk(fs, None).rows == Desc(fs[0].db)
  {
    assert Remaining(fs[0].db, None) == fs[0].db;
    NewerRowsLandAbove(fs[0].db, fs, None);
    ChangesAboveAreUnseen(fs, None);
  }
}
