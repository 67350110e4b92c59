/**
 * Keyset pagination of the entry lists (lib/entries.ts). Times are microseconds, the precision of the
 * columns; a cursor goes through a JavaScript Date and is cut to milliseconds.
 */
module Pagination {
  import opened Options

  datatype Sensitivity = Public | Internal | Restricted

  datatype Role = Admin | User

  datatype Row = Row(
    id: int,
    updatedAt: int,
    verifiedAt: int,
    category: string,
    tags: seq<string>,
    sensitivity: Sensitivity,
    body: string)

  /** Newest first by `updated_at`, or oldest first by `last_verified_at`; ids break ties the same way. */
  datatype Listing = NewestFirst | StalestFirst

  datatype Key = Key(at: int, id: int)

  datatype Page = Page(rows: seq<Row>, next: Option<Key>)

  const DEFAULT_LIMIT := 25.0
  const MAX_LIMIT := 100
  const US_PER_MS := 1000
  const DAY_MS := 86400000
  const DAY_US := DAY_MS * US_PER_MS

  function KeyOf(l: Listing, r: Row): Key {
    if l == NewestFirst then Key(r.updatedAt, r.id) else Key(r.verifiedAt, r.id)
  }

  /** `a` comes strictly before `b` in the listing. */
  predicate Before(l: Listing, a: Key, b: Key) {
    if l == NewestFirst then b.at < a.at || (b.at == a.at && b.id < a.id)
    else a.at < b.at || (a.at == b.at && a.id < b.id)
  }

  /** What is left of a key once its time has been a Date. */
  function Cut(k: Key): (c: Key)
    ensures c.at <= k.at < c.at + US_PER_MS && c.id == k.id
    ensures c == k <==> k.at % US_PER_MS == 0
  {
    Key(k.at - k.at % US_PER_MS, k.id)
  }

  /** `id` is the primary key. */
  ghost predicate UniqueIds(rows: set<Row>) {
    forall r, q :: r in rows && q in rows && r.id == q.id ==> r == q
  }

  /** The keyset condition: strictly past the cursor. */
  predicate Past(l: Listing, cursor: Option<Key>, r: Row) {
    cursor.Some? ==> Before(l, cursor.value, KeyOf(l, r))
  }

  function Rest(l: Listing, rows: set<Row>, cursor: Option<Key>): (rest: set<Row>)
    ensures rest <= rows && (UniqueIds(rows) ==> UniqueIds(rest))
  {
    set r | r in rows && Past(l, cursor, r)
  }

  // ----- ORDER BY -----

  predicate IsFirst(l: Listing, rows: set<Row>, r: Row) {
    r in rows && forall q :: q in rows ==> q == r || Before(l, KeyOf(l, r), KeyOf(l, q))
  }

  lemma {:induction false} FirstExists(l: Listing, rows: set<Row>)
    requires rows != {} && UniqueIds(rows)
    ensures exists r :: IsFirst(l, rows, r)
    decreases |rows|
  {
    var r :| r in rows;
    if rows == {r} {
      assert IsFirst(l, rows, r);
    } else {
      FirstExists(l, rows - {r});
      var f :| IsFirst(l, rows - {r}, f);
      var first := if Before(l, KeyOf(l, r), KeyOf(l, f)) then r else f;
      assert r.id != f.id;
      assert IsFirst(l, rows, first);
    }
  }

  ghost function First(l: Listing, rows: set<Row>): (r: Row)
    requires rows != {} && UniqueIds(rows)
    ensures IsFirst(l, rows, r)
  {
    FirstExists(l, rows);
    var r :| IsFirst(l, rows, r);
    r
  }

  ghost function Ordered(l: Listing, rows: set<Row>): (s: seq<Row>)
    requires UniqueIds(rows)
    ensures |s| == |rows|
    decreases |rows|
  {
    if rows == {} then [] else [First(l, rows)] + Ordered(l, rows - {First(l, rows)})
  }

  /** Strictly in listing order, and exactly these rows. */
  ghost predicate Lists(l: Listing, s: seq<Row>, rows: set<Row>) {
    && (forall r :: r in s <==> r in rows)
    && (forall i, j :: 0 <= i < j < |s| ==> Before(l, KeyOf(l, s[i]), KeyOf(l, s[j])))
  }

  lemma {:induction false} OrderedLists(l: Listing, rows: set<Row>)
    requires UniqueIds(rows)
    ensures Lists(l, Ordered(l, rows), rows)
    decreases |rows|
  {
    hide UniqueIds;
    if rows != {} {
      var f := First(l, rows);
      OrderedStep(l, rows);
      OrderedLists(l, rows - {f});
      ListsCons(l, f, Ordered(l, rows - {f}), rows);
      hide Ordered;
      hide Lists;
    }
  }

  lemma ListsCons(l: Listing, f: Row, s: seq<Row>, rows: set<Row>)
    requires IsFirst(l, rows, f) && Lists(l, s, rows - {f})
    ensures Lists(l, [f] + s, rows)
  {
    var all := [f] + s;
    forall r
      ensures r in all <==> r in rows
    {
      assert r in s <==> r in rows - {f};
      hide Before;
    }
    forall i, j | 0 <= i < j < |all|
      ensures Before(l, KeyOf(l, all[i]), KeyOf(l, all[j]))
    {
      assert all[j] == s[j - 1] && s[j - 1] in s;
      hide Before;
    }
  }

  lemma FirstIsUnique(l: Listing, rows: set<Row>, r: Row, q: Row)
    requires IsFirst(l, rows, r) && IsFirst(l, rows, q)
    ensures r == q
  {
  }

  lemma HeadIsFirst(l: Listing, s: seq<Row>, rows: set<Row>)
    requires Lists(l, s, rows) && rows != {}
    ensures s != [] && IsFirst(l, rows, s[0])
  {
    var any :| any in rows;
    assert any in s && s[0] in s;
    forall q | q in rows
      ensures q == s[0] || Before(l, KeyOf(l, s[0]), KeyOf(l, q))
    {
      assert q in s;
      var j :| 0 <= j < |s| && s[j] == q;
    }
    hide Before;
  }

  lemma OrderedStep(l: Listing, rows: set<Row>)
    requires rows != {} && UniqueIds(rows)
    ensures UniqueIds(rows - {First(l, rows)})
    ensures Ordered(l, rows) == [First(l, rows)] + Ordered(l, rows - {First(l, rows)})
  {
  }

  lemma HeadAndTail(l: Listing, s: seq<Row>, rows: set<Row>)
    requires UniqueIds(rows) && Lists(l, s, rows) && s != []
    ensures s[0] in rows && UniqueIds(rows - {s[0]}) && Lists(l, s[1..], rows - {s[0]})
    ensures Ordered(l, rows) == [s[0]] + Ordered(l, rows - {s[0]})
  {
    assert s[0] in s;
    HeadIsFirst(l, s, rows);
    ListsTail(l, s, rows);
    hide Lists;
    FirstIsUnique(l, rows, s[0], First(l, rows));
    hide IsFirst;
    OrderedStep(l, rows);
  }

  /** There is only one way to list a set of rows. */
  lemma {:induction false} ListingIsUnique(l: Listing, s: seq<Row>, rows: set<Row>)
    requires UniqueIds(rows) && Lists(l, s, rows)
    ensures s == Ordered(l, rows)
    decreases |rows|
  {
    hide Lists;
    hide UniqueIds;
    hide Ordered;
    if s == [] {
      NothingListed(l, rows);
    } else {
      HeadAndTail(l, s, rows);
      ListingIsUnique(l, s[1..], rows - {s[0]});
      assert s == [s[0]] + s[1..];
    }
  }

  lemma NothingListed(l: Listing, rows: set<Row>)
    requires Lists(l, [], rows) && UniqueIds(rows)
    ensures Ordered(l, rows) == []
  {
    assert forall r :: r in rows ==> r in [];
    assert rows == {};
  }

  lemma ListsTail(l: Listing, s: seq<Row>, rows: set<Row>)
    requires Lists(l, s, rows) && s != []
    ensures Lists(l, s[1..], rows - {s[0]})
  {
    forall r
      ensures r in s[1..] <==> r in rows - {s[0]}
    {
      assert r in s <==> r in rows;
      assert s == [s[0]] + s[1..];
      if r in s[1..] {
        var j :| 0 <= j < |s[1..]| && s[1..][j] == r;
        assert s[1..][j] == s[j + 1];
      }
    }
  }

  /** Past the k-th row of the listing lie exactly the rows that follow it. */
  lemma RestOfOrdered(l: Listing, rows: set<Row>, k: nat)
    requires UniqueIds(rows) && k < |Ordered(l, rows)|
    ensures Ordered(l, Rest(l, rows, Some(KeyOf(l, Ordered(l, rows)[k])))) == Ordered(l, rows)[k + 1..]
  {
    OrderedLists(l, rows);
    var s := Ordered(l, rows);
    hide Ordered;
    var rest := Rest(l, rows, Some(KeyOf(l, s[k])));
    ListsRest(l, s, rows, k);
    ListingIsUnique(l, s[k + 1..], rest);
  }

  lemma ListsRest(l: Listing, s: seq<Row>, rows: set<Row>, k: nat)
    requires Lists(l, s, rows) && k < |s|
    ensures Lists(l, s[k + 1..], Rest(l, rows, Some(KeyOf(l, s[k]))))
  {
    var rest := Rest(l, rows, Some(KeyOf(l, s[k])));
    forall r
      ensures r in s[k + 1..] <==> r in rest
    {
      if r in rows {
        var i :| 0 <= i < |s| && s[i] == r;
        assert i > k ==> s[k + 1..][i - k - 1] == r;
        if i <= k {
          assert i < k ==> Before(l, KeyOf(l, s[i]), KeyOf(l, s[k]));
          assert r !in rest;
        }
      }
      if r in s[k + 1..] {
        var j :| 0 <= j < |s[k + 1..]| && s[k + 1..][j] == r;
        assert s[k + 1 + j] == r && r in s;
      }
    }
  }

  // ----- One page -----

  function ClampLimit(raw: real): (limit: nat)
    ensures 1 <= limit <= MAX_LIMIT
  {
    var floored := raw.Floor;
    var capped := if floored < MAX_LIMIT then floored else MAX_LIMIT;
    if capped > 1 then capped else 1
  }

  function Prefix(s: seq<Row>, n: nat): seq<Row> {
    if |s| <= n then s else s[..n]
  }

  ghost function PageOf(l: Listing, rows: set<Row>, cursor: Option<Key>, limit: nat): Page
    requires UniqueIds(rows) && limit >= 1
  {
    var s := Ordered(l, Rest(l, rows, cursor));
    if |s| <= limit then Page(s, None) else Page(s[..limit], Some(Cut(KeyOf(l, s[limit - 1]))))
  }

  /** SELECT ... ORDER BY ... LIMIT n over the rows past the cursor. */
  method RunQuery(l: Listing, rows: set<Row>, cursor: Option<Key>, n: nat) returns (s: seq<Row>)
    requires UniqueIds(rows)
    ensures s == Prefix(Ordered(l, Rest(l, rows, cursor)), n)
  {
    var left := Rest(l, rows, cursor);
    ghost var all := Ordered(l, left);
    s := [];
    while |s| < n && left != {}
      invariant left <= rows && UniqueIds(left) && |s| <= n
      invariant all == s + Ordered(l, left)
      decreases |left|
    {
      FirstExists(l, left);
      var r :| IsFirst(l, left, r);
      FirstIsUnique(l, left, r, First(l, left));
      OrderedStep(l, left);
      PushThenRest(s, r, Ordered(l, left - {r}));
      s := s + [r];
      left := left - {r};
      hide Ordered;
      hide IsFirst;
      hide UniqueIds;
    }
    assert left == {} ==> Ordered(l, left) == [];
  }

  lemma PushThenRest(s: seq<Row>, r: Row, rest: seq<Row>)
    ensures s + ([r] + rest) == (s + [r]) + rest
  {
  }

  /** Peek one row ahead; the cursor is the last row shown, not the peeked one, with its time cut. */
  method ListPage(l: Listing, rows: set<Row>, cursor: Option<Key>, rawLimit: real) returns (page: Page)
    requires UniqueIds(rows)
    ensures page == PageOf(l, rows, cursor, ClampLimit(rawLimit))
  {
    hide Ordered;
    hide UniqueIds;
    hide Cut;
    var limit := ClampLimit(rawLimit);
    var found := RunQuery(l, rows, cursor, limit + 1);
    if |found| <= limit {
      return Page(found, None);
    }
    var pageRows := found[..limit];
    var lastOfPage := pageRows[|pageRows| - 1];
    page := Page(pageRows, Some(Cut(KeyOf(l, lastOfPage))));
  }

  // ----- The two listings -----

  function AllowedForRole(role: Role): set<Sensitivity> {
    if role == Admin then {Public, Internal, Restricted} else {Public, Internal}
  }

  datatype Filters = Filters(
    category: Option<string>, tag: Option<string>, sensitivity: Option<Sensitivity>, query: Option<string>)

  /** The WHERE clause without the cursor; `hits` is the full-text match. */
  predicate Matches(role: Role, f: Filters, hits: (string, Row) -> bool, r: Row) {
    && r.sensitivity in AllowedForRole(role)
    && (f.category.Some? ==> r.category == f.category.value)
    && (f.tag.Some? ==> f.tag.value in r.tags)
    && (f.sensitivity.Some? ==> r.sensitivity == f.sensitivity.value)
    && (f.query.Some? ==> hits(f.query.value, r))
  }

  function Matching(role: Role, f: Filters, hits: (string, Row) -> bool, table: set<Row>): (m: set<Row>)
    ensures m <= table
  {
    set r | r in table && Matches(role, f, hits, r)
  }

  /** At least one day, however small the caller's threshold. */
  function StaleDays(olderThanMs: int): (days: int)
    ensures days >= 1
  {
    if olderThanMs / DAY_MS > 1 then olderThanMs / DAY_MS else 1
  }

  function Stale(role: Role, now: int, olderThanMs: int, table: set<Row>): (m: set<Row>)
    ensures m <= table
  {
    set r | r in table && r.sensitivity in AllowedForRole(role) && r.verifiedAt < now - StaleDays(olderThanMs) * DAY_US
  }

  method ListEntriesForAdmin(
      table: set<Row>, role: Role, f: Filters, hits: (string, Row) -> bool, cursor: Option<Key>, limit: Option<real>)
    returns (page: Page)
    requires UniqueIds(table)
    ensures page == PageOf(NewestFirst, Matching(role, f, hits, table), cursor,
                           ClampLimit(if limit.Some? then limit.value else DEFAULT_LIMIT))
    ensures forall r :: r in page.rows ==> r in table && Matches(role, f, hits, r)
  {
    var rows := Matching(role, f, hits, table);
    hide PageOf;
    hide Ordered;
    hide Matches;
    hide Rest;
    page := ListPage(NewestFirst, rows, cursor, if limit.Some? then limit.value else DEFAULT_LIMIT);
    PageRowsFromRest(NewestFirst, rows, cursor, ClampLimit(if limit.Some? then limit.value else DEFAULT_LIMIT));
  }

  method ListStaleEntries(
      table: set<Row>, role: Role, now: int, olderThanMs: int, cursor: Option<Key>, limit: Option<real>)
    returns (page: Page)
    requires UniqueIds(table)
    ensures page == PageOf(StalestFirst, Stale(role, now, olderThanMs, table), cursor,
                           ClampLimit(if limit.Some? then limit.value else DEFAULT_LIMIT))
    ensures forall r :: r in page.rows ==> r in table && r.verifiedAt < now - DAY_US
  {
    var rows := Stale(role, now, olderThanMs, table);
    hide PageOf;
    hide Ordered;
    StaleForADay(role, now, olderThanMs, table);
    page := ListPage(StalestFirst, rows, cursor, if limit.Some? then limit.value else DEFAULT_LIMIT);
    PageRowsFromRest(StalestFirst, rows, cursor, ClampLimit(if limit.Some? then limit.value else DEFAULT_LIMIT));
  }

  lemma StaleForADay(role: Role, now: int, olderThanMs: int, table: set<Row>)
    ensures forall r :: r in Stale(role, now, olderThanMs, table) ==> r.verifiedAt < now - DAY_US
  {
    var days := StaleDays(olderThanMs);
    assert days * DAY_US >= DAY_US;
  }

  lemma PageRowsFromRest(l: Listing, rows: set<Row>, cursor: Option<Key>, limit: nat)
    requires UniqueIds(rows) && limit >= 1
    ensures forall r :: r in PageOf(l, rows, cursor, limit).rows ==> r in rows
  {
    OrderedLists(l, Rest(l, rows, cursor));
    hide Ordered;
    assert forall r :: r in PageOf(l, rows, cursor, limit).rows ==> r in Ordered(l, Rest(l, rows, cursor));
  }

  // ----- Walking an unchanged table -----

  /** The key the next cursor is cut from. */
  function LastKey(l: Listing, page: Page): Key
    requires page.rows != []
  {
    KeyOf(l, page.rows[|page.rows| - 1])
  }

  /** A page and the rows behind its last one are what lay past the cursor; the next cursor is that row's cut key. */
  lemma PageSplitsRest(l: Listing, rows: set<Row>, cursor: Option<Key>, limit: nat)
    requires UniqueIds(rows) && limit >= 1
    ensures var page := PageOf(l, rows, cursor, limit);
            var rest := Rest(l, rows, cursor);
            if page.next.None? then page.rows == Ordered(l, rest) && |rest| <= limit
            else
              && |page.rows| == limit && limit < |rest|
              && page.next == Some(Cut(LastKey(l, page)))
              && page.rows[limit - 1] in rest
              && Ordered(l, rest) == page.rows + Ordered(l, Rest(l, rows, Some(LastKey(l, page))))
              && |Rest(l, rows, Some(LastKey(l, page)))| == |rest| - limit
  {
    hide Ordered;
    hide Rest;
    hide UniqueIds;
    hide Before;
    hide Cut;
    var s := Ordered(l, Rest(l, rows, cursor));
    if |s| > limit {
      RestPastRow(l, rows, cursor, limit - 1);
      RowOfOrdered(l, Rest(l, rows, cursor), limit - 1);
      assert s == s[..limit] + s[limit..];
    }
  }

  lemma RowOfOrdered(l: Listing, rows: set<Row>, k: nat)
    requires UniqueIds(rows) && k < |Ordered(l, rows)|
    ensures Ordered(l, rows)[k] in rows
  {
    OrderedLists(l, rows);
    hide Ordered;
    assert Ordered(l, rows)[k] in Ordered(l, rows);
  }

  /** Starting after the k-th row of what is left leaves exactly the rows that follow it. */
  lemma RestPastRow(l: Listing, rows: set<Row>, cursor: Option<Key>, k: nat)
    requires UniqueIds(rows) && k < |Ordered(l, Rest(l, rows, cursor))|
    ensures var s := Ordered(l, Rest(l, rows, cursor));
            var tail := Rest(l, rows, Some(KeyOf(l, s[k])));
            Ordered(l, tail) == s[k + 1..] && |tail| == |s| - k - 1
  {
    var rest := Rest(l, rows, cursor);
    var s := Ordered(l, rest);
    RestOfOrdered(l, rest, k);
    OrderedLists(l, rest);
    hide Ordered;
    assert s[k] in s;
    RestIsMonotone(l, rows, cursor, s[k]);
    hide Rest;
    hide Lists;
    assert |Ordered(l, Rest(l, rows, Some(KeyOf(l, s[k]))))| == |Rest(l, rows, Some(KeyOf(l, s[k])))|;
  }

  /** Past a row that is past the cursor, the cursor no longer matters. */
  lemma RestIsMonotone(l: Listing, rows: set<Row>, cursor: Option<Key>, r: Row)
    requires r in Rest(l, rows, cursor)
    ensures Rest(l, Rest(l, rows, cursor), Some(KeyOf(l, r))) == Rest(l, rows, Some(KeyOf(l, r)))
  {
  }

  /** The first `n` pages a client gets by following `nextCursor` while the table stays as it is. */
  ghost function Walk(l: Listing, rows: set<Row>, cursor: Option<Key>, limit: nat, n: nat): seq<Page>
    requires UniqueIds(rows) && limit >= 1
    decreases n
  {
    if n == 0 then []
    else
      var page := PageOf(l, rows, cursor, limit);
      if page.next.None? then [page] else [page] + Walk(l, rows, page.next, limit, n - 1)
  }

  function Shown(pages: seq<Page>): seq<Row> {
    if pages == [] then [] else pages[0].rows + Shown(pages[1..])
  }

  ghost predicate Finished(pages: seq<Page>) {
    pages != [] && pages[|pages| - 1].next.None?
  }

  function PagesFor(n: nat, limit: nat): nat
    requires limit >= 1
    decreases n
  {
    if n <= limit then 1 else 1 + PagesFor(n - limit, limit)
  }

  /** Following the cursors comes to an end, after showing exactly `s`. */
  ghost predicate ShowsExactly(l: Listing, rows: set<Row>, cursor: Option<Key>, limit: nat, s: seq<Row>)
    requires UniqueIds(rows) && limit >= 1
  {
    exists n: nat :: Finished(Walk(l, rows, cursor, limit, n)) && Shown(Walk(l, rows, cursor, limit, n)) == s
  }

  /** What a listing is for: each row past the cursor once, in order, and then the end. */
  ghost predicate ShowsAll(l: Listing, rows: set<Row>, cursor: Option<Key>, limit: nat)
    requires UniqueIds(rows) && limit >= 1
  {
    ShowsExactly(l, rows, cursor, limit, Ordered(l, Rest(l, rows, cursor)))
  }

  /** Cutting the key of `r` leaves the same rows past it. */
  ghost predicate CleanAt(l: Listing, rows: set<Row>, r: Row) {
    forall q :: q in rows ==> (Before(l, Cut(KeyOf(l, r)), KeyOf(l, q)) <==> Before(l, KeyOf(l, r), KeyOf(l, q)))
  }

  /** Position `i` of the listing is the last of a full page. */
  predicate EndsPage(i: nat, limit: nat)
    requires limit >= 1
    decreases i
  {
    i == limit - 1 || (i >= limit && EndsPage(i - limit, limit))
  }

  /** Every row that ends a full page with more to come can be cut. */
  ghost predicate CleanPages(l: Listing, rows: set<Row>, s: seq<Row>, limit: nat)
    requires limit >= 1
  {
    forall i :: 0 <= i < |s| - 1 && EndsPage(i, limit) ==> CleanAt(l, rows, s[i])
  }

  ghost predicate CutsCleanly(l: Listing, rows: set<Row>, cursor: Option<Key>, limit: nat)
    requires UniqueIds(rows) && limit >= 1
  {
    CleanPages(l, rows, Ordered(l, Rest(l, rows, cursor)), limit)
  }

  lemma WalkStep(l: Listing, rows: set<Row>, cursor: Option<Key>, limit: nat, n: nat)
    requires UniqueIds(rows) && limit >= 1 && n >= 1
    ensures var page := PageOf(l, rows, cursor, limit);
            var w := Walk(l, rows, cursor, limit, n);
            if page.next.None? then Finished(w) && Shown(w) == page.rows && |w| == 1
            else
              var later := Walk(l, rows, page.next, limit, n - 1);
              Shown(w) == page.rows + Shown(later) && |w| == 1 + |later| && (Finished(w) <==> Finished(later))
  {
    hide PageOf;
    var page := PageOf(l, rows, cursor, limit);
    var w := Walk(l, rows, cursor, limit, n);
    if page.next.None? {
      assert w == [page] && w[1..] == [];
      assert page.rows + [] == page.rows;
    } else {
      var later := Walk(l, rows, page.next, limit, n - 1);
      assert w[1..] == later;
    }
  }

  lemma LastPage(l: Listing, rows: set<Row>, cursor: Option<Key>, limit: nat)
    requires UniqueIds(rows) && limit >= 1 && PageOf(l, rows, cursor, limit).next.None?
    ensures ShowsAll(l, rows, cursor, limit)
  {
    PageSplitsRest(l, rows, cursor, limit);
    WalkStep(l, rows, cursor, limit, 1);
    hide PageOf;
    hide Walk;
    hide Ordered;
    assert Finished(Walk(l, rows, cursor, limit, 1));
  }

  /** One page on, what remains to be shown remains to be shown. */
  lemma ShowsStep(l: Listing, rows: set<Row>, cursor: Option<Key>, limit: nat, s: seq<Row>)
    requires UniqueIds(rows) && limit >= 1 && PageOf(l, rows, cursor, limit).next.Some?
    ensures var page := PageOf(l, rows, cursor, limit);
            ShowsExactly(l, rows, cursor, limit, page.rows + s) <==> ShowsExactly(l, rows, page.next, limit, s)
  {
    hide PageOf;
    var page := PageOf(l, rows, cursor, limit);
    if ShowsExactly(l, rows, cursor, limit, page.rows + s) {
      ShowsRest(l, rows, cursor, limit, s);
    }
    if ShowsExactly(l, rows, page.next, limit, s) {
      hide Walk;
      hide UniqueIds;
      var n: nat :| Finished(Walk(l, rows, page.next, limit, n)) && Shown(Walk(l, rows, page.next, limit, n)) == s;
      WalkStep(l, rows, cursor, limit, n + 1);
    }
  }

  lemma ShowsRest(l: Listing, rows: set<Row>, cursor: Option<Key>, limit: nat, s: seq<Row>)
    requires UniqueIds(rows) && limit >= 1 && PageOf(l, rows, cursor, limit).next.Some?
    requires ShowsExactly(l, rows, cursor, limit, PageOf(l, rows, cursor, limit).rows + s)
    ensures ShowsExactly(l, rows, PageOf(l, rows, cursor, limit).next, limit, s)
  {
    hide PageOf;
    hide Walk;
    hide UniqueIds;
    hide Finished;
    hide Shown;
    var page := PageOf(l, rows, cursor, limit);
    var n: nat :| Finished(Walk(l, rows, cursor, limit, n)) && Shown(Walk(l, rows, cursor, limit, n)) == page.rows + s;
    NoPagesUnfinished(l, rows, cursor, limit);
    WalkStep(l, rows, cursor, limit, n);
    SameTail(page.rows, Shown(Walk(l, rows, page.next, limit, n - 1)), s);
    assert Finished(Walk(l, rows, page.next, limit, n - 1));
  }

  lemma SameTail(a: seq<Row>, b: seq<Row>, c: seq<Row>)
    requires a + b == a + c
    ensures b == c
  {
    assert b == (a + b)[|a|..] && c == (a + c)[|a|..];
  }

  lemma NoPagesUnfinished(l: Listing, rows: set<Row>, cursor: Option<Key>, limit: nat)
    requires UniqueIds(rows) && limit >= 1
    ensures !Finished(Walk(l, rows, cursor, limit, 0))
  {
  }

  // ----- When the cut does no harm -----

  /** Newest first, a cut key lies at or behind the key; stalest first, at or before it. */
  lemma CutDirection(l: Listing, k: Key, q: Key)
    ensures l == NewestFirst && Before(l, Cut(k), q) ==> Before(l, k, q)
    ensures l == StalestFirst && Before(l, k, q) ==> Before(l, Cut(k), q)
  {
  }

  /** Newest first, whatever a walk shows lies past its cursor. */
  lemma {:induction false} ShownIsPast(rows: set<Row>, cursor: Option<Key>, limit: nat, n: nat, r: Row)
    requires UniqueIds(rows) && limit >= 1 && r in Shown(Walk(NewestFirst, rows, cursor, limit, n))
    ensures r in Rest(NewestFirst, rows, cursor)
    decreases n
  {
    hide PageOf;
    hide Walk;
    hide Ordered;
    hide Shown;
    hide UniqueIds;
    var l := NewestFirst;
    NothingShown(l, rows, cursor, limit);
    WalkStep(l, rows, cursor, limit, n);
    PageSplitsRest(l, rows, cursor, limit);
    OrderedLists(l, Rest(l, rows, cursor));
    var page := PageOf(l, rows, cursor, limit);
    hide Lists;
    if r in page.rows {
      PageIsPast(l, rows, cursor, limit, r);
    } else {
      ShownIsPast(rows, page.next, limit, n - 1, r);
      BehindTheCut(rows, cursor, page.rows[limit - 1], r);
    }
  }

  lemma PageIsPast(l: Listing, rows: set<Row>, cursor: Option<Key>, limit: nat, r: Row)
    requires UniqueIds(rows) && limit >= 1 && r in PageOf(l, rows, cursor, limit).rows
    ensures r in Rest(l, rows, cursor)
  {
    OrderedLists(l, Rest(l, rows, cursor));
    hide Ordered;
    assert r in Ordered(l, Rest(l, rows, cursor));
  }

  lemma BehindTheCut(rows: set<Row>, cursor: Option<Key>, b: Row, r: Row)
    requires b in Rest(NewestFirst, rows, cursor) && r in Rest(NewestFirst, rows, Some(Cut(KeyOf(NewestFirst, b))))
    ensures r in Rest(NewestFirst, rows, cursor)
  {
  }

  lemma NothingShown(l: Listing, rows: set<Row>, cursor: Option<Key>, limit: nat)
    requires UniqueIds(rows) && limit >= 1
    ensures Shown(Walk(l, rows, cursor, limit, 0)) == []
  {
  }

  /** A walk on from a row that cannot be cut misses a row behind it, or starts with a row not behind it. */
  lemma UncleanCutShows(l: Listing, rows: set<Row>, b: Row, limit: nat)
    requires UniqueIds(rows) && limit >= 1 && !CleanAt(l, rows, b)
    ensures !ShowsExactly(l, rows, Some(Cut(KeyOf(l, b))), limit, Ordered(l, Rest(l, rows, Some(KeyOf(l, b)))))
  {
    var next := Some(Cut(KeyOf(l, b)));
    var behind := Rest(l, rows, Some(KeyOf(l, b)));
    OrderedLists(l, behind);
    var q :| q in rows && !(Before(l, Cut(KeyOf(l, b)), KeyOf(l, q)) <==> Before(l, KeyOf(l, b), KeyOf(l, q)));
    CutDirection(l, KeyOf(l, b), KeyOf(l, q));
    forall n: nat | Finished(Walk(l, rows, next, limit, n))
      ensures Shown(Walk(l, rows, next, limit, n)) != Ordered(l, behind)
    {
      hide Walk;
      if l == NewestFirst {
        assert q in Ordered(l, behind) && q !in Rest(l, rows, next);
        if q in Shown(Walk(l, rows, next, limit, n)) {
          ShownIsPast(rows, next, limit, n, q);
        }
      } else {
        ReadmittedComesFirst(rows, b, q, limit, n);
      }
    }
  }

  /** Stalest first, the page after a row whose cut readmits `q` starts with a row that is not behind it. */
  lemma ReadmittedComesFirst(rows: set<Row>, b: Row, q: Row, limit: nat, n: nat)
    requires UniqueIds(rows) && limit >= 1 && q in rows
    requires var l := StalestFirst; Before(l, Cut(KeyOf(l, b)), KeyOf(l, q)) && !Before(l, KeyOf(l, b), KeyOf(l, q))
    requires Finished(Walk(StalestFirst, rows, Some(Cut(KeyOf(StalestFirst, b))), limit, n))
    ensures var shown := Shown(Walk(StalestFirst, rows, Some(Cut(KeyOf(StalestFirst, b))), limit, n));
            shown != [] && shown[0] !in Rest(StalestFirst, rows, Some(KeyOf(StalestFirst, b)))
  {
    hide PageOf;
    hide Ordered;
    hide Walk;
    hide UniqueIds;
    hide Finished;
    hide Lists;
    hide Before;
    hide Cut;
    var l := StalestFirst;
    var next := Some(Cut(KeyOf(l, b)));
    var rest := Rest(l, rows, next);
    var s := Ordered(l, rest);
    NoPagesUnfinished(l, rows, next, limit);
    WalkStep(l, rows, next, limit, n);
    PageSplitsRest(l, rows, next, limit);
    OrderedLists(l, rest);
    assert q in rest;
    HeadIsFirst(l, s, rest);
    hide Rest;
    NotBehindEither(rows, b, q, s[0]);
  }

  lemma NotBehindEither(rows: set<Row>, b: Row, q: Row, head: Row)
    requires head == q || Before(StalestFirst, KeyOf(StalestFirst, head), KeyOf(StalestFirst, q))
    requires !Before(StalestFirst, KeyOf(StalestFirst, b), KeyOf(StalestFirst, q))
    ensures head !in Rest(StalestFirst, rows, Some(KeyOf(StalestFirst, b)))
  {
  }

  /** Where a full page with more to come ends, and what lies behind its last row. */
  lemma FullPage(l: Listing, rows: set<Row>, cursor: Option<Key>, limit: nat)
    requires UniqueIds(rows) && limit >= 1 && PageOf(l, rows, cursor, limit).next.Some?
    ensures var page := PageOf(l, rows, cursor, limit);
            var behind := Rest(l, rows, Some(LastKey(l, page)));
            && |page.rows| == limit && page.next == Some(Cut(LastKey(l, page)))
            && |behind| < |Rest(l, rows, cursor)|
            && (ShowsAll(l, rows, cursor, limit) <==> ShowsExactly(l, rows, page.next, limit, Ordered(l, behind)))
            && (CutsCleanly(l, rows, cursor, limit) <==>
                CleanAt(l, rows, page.rows[limit - 1]) && CleanPages(l, rows, Ordered(l, behind), limit))
  {
    hide PageOf;
    hide Ordered;
    hide Rest;
    hide CleanAt;
    hide CleanPages;
    hide UniqueIds;
    hide ShowsExactly;
    hide Cut;
    var page := PageOf(l, rows, cursor, limit);
    PageSplitsRest(l, rows, cursor, limit);
    var behind := Rest(l, rows, Some(LastKey(l, page)));
    ShowsStep(l, rows, cursor, limit, Ordered(l, behind));
    assert behind != {} by { assert |behind| > 0; }
    CleanPagesShift(l, rows, page.rows, Ordered(l, behind), limit);
  }

  /**
   * The exact condition, page size by page size: the walk shows each row once, in order, and ends, if and
   * only if the cut does no harm at any row that ends a full page with more to come.
   */
  lemma {:induction false} WalkShowsAllIff(l: Listing, rows: set<Row>, cursor: Option<Key>, limit: nat)
    requires UniqueIds(rows) && limit >= 1
    ensures ShowsAll(l, rows, cursor, limit) <==> CutsCleanly(l, rows, cursor, limit)
    decreases |Rest(l, rows, cursor)|
  {
    hide PageOf;
    hide Ordered;
    hide Rest;
    hide CleanAt;
    hide CleanPages;
    hide UniqueIds;
    hide ShowsExactly;
    hide Cut;
    var page := PageOf(l, rows, cursor, limit);
    if page.next.None? {
      LastPage(l, rows, cursor, limit);
      PageSplitsRest(l, rows, cursor, limit);
      ShortListIsClean(l, rows, page.rows, limit);
    } else {
      FullPage(l, rows, cursor, limit);
      var b := page.rows[limit - 1];
      if CleanAt(l, rows, b) {
        CleanCutLeavesTheSame(l, rows, b);
        WalkShowsAllIff(l, rows, page.next, limit);
      } else {
        UncleanCutShows(l, rows, b, limit);
      }
    }
  }

  lemma CleanCutLeavesTheSame(l: Listing, rows: set<Row>, b: Row)
    requires CleanAt(l, rows, b)
    ensures Rest(l, rows, Some(Cut(KeyOf(l, b)))) == Rest(l, rows, Some(KeyOf(l, b)))
  {
    hide Before;
    hide Cut;
  }

  lemma ShortListIsClean(l: Listing, rows: set<Row>, s: seq<Row>, limit: nat)
    requires limit >= 1 && |s| <= limit
    ensures CleanPages(l, rows, s, limit)
  {
  }

  /** A full page in front, with more to come, adds the one place where it ends. */
  lemma CleanPagesShift(l: Listing, rows: set<Row>, page: seq<Row>, t: seq<Row>, limit: nat)
    requires limit >= 1 && |page| == limit && t != []
    ensures CleanPages(l, rows, page + t, limit) <==> CleanAt(l, rows, page[limit - 1]) && CleanPages(l, rows, t, limit)
  {
    hide CleanAt;
    var s := page + t;
    if CleanPages(l, rows, s, limit) {
      assert EndsPage(limit - 1, limit) && s[limit - 1] == page[limit - 1];
      forall i | 0 <= i < |t| - 1 && EndsPage(i, limit)
        ensures CleanAt(l, rows, t[i])
      {
        assert EndsPage(i + limit, limit) && s[i + limit] == t[i];
      }
    }
    if CleanAt(l, rows, page[limit - 1]) && CleanPages(l, rows, t, limit) {
      forall i | 0 <= i < |s| - 1 && EndsPage(i, limit)
        ensures CleanAt(l, rows, s[i])
      {
        assert if i == limit - 1 then s[i] == page[i] else EndsPage(i - limit, limit) && s[i] == t[i - limit];
      }
    }
  }

  /** The walk ends, and shows every row past the cursor exactly once, in order, on full pages. */
  lemma {:induction false} WalkShowsAll(l: Listing, rows: set<Row>, cursor: Option<Key>, limit: nat)
    requires UniqueIds(rows) && limit >= 1 && CutsCleanly(l, rows, cursor, limit)
    ensures var rest := Rest(l, rows, cursor);
            var w := Walk(l, rows, cursor, limit, PagesFor(|rest|, limit));
            Finished(w) && |w| == PagesFor(|rest|, limit) && Shown(w) == Ordered(l, rest)
    decreases |Rest(l, rows, cursor)|
  {
    hide PageOf;
    hide Ordered;
    hide Rest;
    hide Walk;
    hide Shown;
    hide Finished;
    hide CleanAt;
    hide CleanPages;
    hide UniqueIds;
    hide Cut;
    var page := PageOf(l, rows, cursor, limit);
    PageSplitsRest(l, rows, cursor, limit);
    WalkStep(l, rows, cursor, limit, PagesFor(|Rest(l, rows, cursor)|, limit));
    if page.next.Some? {
      FullPage(l, rows, cursor, limit);
      CleanCutLeavesTheSame(l, rows, page.rows[limit - 1]);
      WalkShowsAll(l, rows, page.next, limit);
    }
  }

  predicate IsWholeMs(k: Key) {
    k.at % US_PER_MS == 0
  }

  lemma WholeMsCutsCleanly(l: Listing, rows: set<Row>, cursor: Option<Key>, limit: nat)
    requires UniqueIds(rows) && limit >= 1 && forall r :: r in rows ==> IsWholeMs(KeyOf(l, r))
    ensures CutsCleanly(l, rows, cursor, limit)
  {
    var rest := Rest(l, rows, cursor);
    var s := Ordered(l, rest);
    hide Before;
    forall i | 0 <= i < |s|
      ensures CleanAt(l, rows, s[i])
    {
      RowOfOrdered(l, rest, i);
      hide Ordered;
      assert Cut(KeyOf(l, s[i])) == KeyOf(l, s[i]);
    }
  }

  lemma {:induction false} EveryRowEndsAPageOfOne(i: nat)
    ensures EndsPage(i, 1)
  {
    if i > 0 {
      EveryRowEndsAPageOfOne(i - 1);
    }
  }

  /** Every row with another one behind it can be cut. */
  ghost predicate EveryRowCleanAt(l: Listing, rows: set<Row>, rest: set<Row>) {
    forall r, q :: r in rest && q in rest && Before(l, KeyOf(l, r), KeyOf(l, q)) ==> CleanAt(l, rows, r)
  }

  ghost predicate ShowsAllAlways(l: Listing, rows: set<Row>, cursor: Option<Key>)
    requires UniqueIds(rows)
  {
    forall limit: nat :: limit >= 1 ==> ShowsAll(l, rows, cursor, limit)
  }

  /** The exact condition for every page size at once. */
  lemma ListingShowsAllIff(l: Listing, rows: set<Row>, cursor: Option<Key>)
    requires UniqueIds(rows)
    ensures ShowsAllAlways(l, rows, cursor) <==> EveryRowCleanAt(l, rows, Rest(l, rows, cursor))
  {
    hide Ordered;
    hide ShowsAll;
    hide EveryRowCleanAt;
    hide CleanPages;
    hide UniqueIds;
    hide Lists;
    hide Rest;
    var rest := Rest(l, rows, cursor);
    OrderedLists(l, rest);
    if ShowsAllAlways(l, rows, cursor) {
      assert ShowsAll(l, rows, cursor, 1);
      WalkShowsAllIff(l, rows, cursor, 1);
      AllCleanFromPagesOfOne(l, rows, Ordered(l, rest), rest);
    }
    if EveryRowCleanAt(l, rows, rest) {
      forall limit: nat | limit >= 1
        ensures ShowsAll(l, rows, cursor, limit)
      {
        WalkShowsAllIff(l, rows, cursor, limit);
        AllCleanOnEveryPage(l, rows, Ordered(l, rest), rest, limit);
      }
    }
  }

  lemma AllCleanOnEveryPage(l: Listing, rows: set<Row>, s: seq<Row>, rest: set<Row>, limit: nat)
    requires limit >= 1 && Lists(l, s, rest) && EveryRowCleanAt(l, rows, rest)
    ensures CleanPages(l, rows, s, limit)
  {
    hide CleanAt;
    hide Before;
    forall i | 0 <= i < |s| - 1
      ensures CleanAt(l, rows, s[i])
    {
      assert s[i] in s && s[i + 1] in s;
      assert Before(l, KeyOf(l, s[i]), KeyOf(l, s[i + 1]));
    }
  }

  lemma AllCleanFromPagesOfOne(l: Listing, rows: set<Row>, s: seq<Row>, rest: set<Row>)
    requires Lists(l, s, rest) && CleanPages(l, rows, s, 1)
    ensures EveryRowCleanAt(l, rows, rest)
  {
    hide CleanAt;
    forall r, q | r in rest && q in rest && Before(l, KeyOf(l, r), KeyOf(l, q))
      ensures CleanAt(l, rows, r)
    {
      assert r in s && q in s;
      var i :| 0 <= i < |s| && s[i] == r;
      var j :| 0 <= j < |s| && s[j] == q;
      assert j < i ==> Before(l, KeyOf(l, q), KeyOf(l, r));
      EveryRowEndsAPageOfOne(i);
    }
  }

  /** Newest first: every page size shows everything iff no row hides another by losing its microseconds. */
  lemma NewestFirstShowsAllIff(rows: set<Row>, cursor: Option<Key>)
    requires UniqueIds(rows)
    ensures var l := NewestFirst;
            var rest := Rest(l, rows, cursor);
            ShowsAllAlways(l, rows, cursor) <==>
            (forall r, q :: r in rest && q in rest && Before(l, KeyOf(l, r), KeyOf(l, q))
               ==> Before(l, Cut(KeyOf(l, r)), KeyOf(l, q)))
  {
    ListingShowsAllIff(NewestFirst, rows, cursor);
    hide ShowsAllAlways;
  }

  /** Each row with another one behind it is on a whole millisecond. */
  ghost predicate WholeMsButLast(l: Listing, rest: set<Row>) {
    forall r, q :: r in rest && q in rest && Before(l, KeyOf(l, r), KeyOf(l, q)) ==> IsWholeMs(KeyOf(l, r))
  }

  lemma StalestFirstShowsAllIff(rows: set<Row>, cursor: Option<Key>)
    requires UniqueIds(rows)
    ensures ShowsAllAlways(StalestFirst, rows, cursor)
            <==> WholeMsButLast(StalestFirst, Rest(StalestFirst, rows, cursor))
  {
    ListingShowsAllIff(StalestFirst, rows, cursor);
    hide ShowsAllAlways;
  }

  // ----- When it does -----

  /**
   * Rows of one transaction share one `updated_at`. More of them than a page holds, at a time that is no whole
   * millisecond: the second page is empty and the last, and the rest is never shown.
   */
  lemma SameInstantIsSkipped(rows: set<Row>, at: int, limit: nat)
    requires UniqueIds(rows) && 1 <= limit < |rows| && at % US_PER_MS != 0
    requires forall r :: r in rows ==> r.updatedAt == at
    ensures var w := Walk(NewestFirst, rows, None, limit, 2);
            Finished(w) && Shown(w) == Ordered(NewestFirst, rows)[..limit]
  {
    var l := NewestFirst;
    var page := PageOf(l, rows, None, limit);
    assert Rest(l, rows, None) == rows;
    PageSplitsRest(l, rows, None, limit);
    assert Rest(l, rows, page.next) == {};
    WalkStep(l, rows, None, limit, 2);
    WalkStep(l, rows, page.next, limit, 1);
    PageSplitsRest(l, rows, page.next, limit);
  }

  /** Following the cursors comes to an end. */
  ghost predicate Ends(l: Listing, rows: set<Row>, cursor: Option<Key>, limit: nat)
    requires UniqueIds(rows) && limit >= 1
  {
    exists n: nat :: Finished(Walk(l, rows, cursor, limit, n))
  }

  lemma ShowsAllEnds(l: Listing, rows: set<Row>, cursor: Option<Key>, limit: nat)
    requires UniqueIds(rows) && limit >= 1 && ShowsAll(l, rows, cursor, limit)
    ensures Ends(l, rows, cursor, limit)
  {
    hide Walk;
    hide Finished;
    hide Shown;
    hide Ordered;
  }

  /** Newest first, the walk at least always ends. */
  lemma {:induction false} NewestFirstEnds(rows: set<Row>, cursor: Option<Key>, limit: nat)
    requires UniqueIds(rows) && limit >= 1
    ensures Ends(NewestFirst, rows, cursor, limit)
    decreases |Rest(NewestFirst, rows, cursor)|
  {
    hide PageOf;
    hide Walk;
    hide Finished;
    hide Rest;
    hide UniqueIds;
    var page := PageOf(NewestFirst, rows, cursor, limit);
    if page.next.None? {
      WalkStep(NewestFirst, rows, cursor, limit, 1);
    } else {
      FewerAreLeft(rows, cursor, limit);
      NewestFirstEnds(rows, page.next, limit);
      var n: nat :| Finished(Walk(NewestFirst, rows, page.next, limit, n));
      WalkStep(NewestFirst, rows, cursor, limit, n + 1);
    }
  }

  lemma FewerAreLeft(rows: set<Row>, cursor: Option<Key>, limit: nat)
    requires UniqueIds(rows) && limit >= 1 && PageOf(NewestFirst, rows, cursor, limit).next.Some?
    ensures |Rest(NewestFirst, rows, PageOf(NewestFirst, rows, cursor, limit).next)| < |Rest(NewestFirst, rows, cursor)|
  {
    var l := NewestFirst;
    var page := PageOf(l, rows, cursor, limit);
    PageSplitsRest(l, rows, cursor, limit);
    hide PageOf;
    hide Ordered;
    var b := page.rows[limit - 1];
    assert Rest(l, rows, page.next) <= Rest(l, rows, cursor) - {b};
    FewerRows(Rest(l, rows, page.next), Rest(l, rows, cursor), b);
  }

  lemma FewerRows(a: set<Row>, b: set<Row>, r: Row)
    requires a <= b - {r} && r in b
    ensures |a| < |b|
  {
    var rest := b - {r} - a;
    assert b - {r} == a + rest;
  }

  /** Stalest first, a row that loses microseconds stays past its own cursor: pages of one never get beyond it. */
  lemma {:induction false} StalestFirstNeverEnds(rows: set<Row>, cursor: Option<Key>, r: Row, q: Row, n: nat)
    requires UniqueIds(rows) && r in Rest(StalestFirst, rows, cursor) && q in rows
    requires Before(StalestFirst, KeyOf(StalestFirst, r), KeyOf(StalestFirst, q)) && !IsWholeMs(KeyOf(StalestFirst, r))
    ensures !Finished(Walk(StalestFirst, rows, cursor, 1, n))
    decreases n
  {
    hide PageOf;
    hide Walk;
    hide Finished;
    hide Rest;
    hide UniqueIds;
    if n == 0 {
      NoPagesUnfinished(StalestFirst, rows, cursor, 1);
    } else {
      StaysAhead(rows, cursor, r, q);
      StalestFirstNeverEnds(rows, PageOf(StalestFirst, rows, cursor, 1).next, r, q, n - 1);
      WalkStep(StalestFirst, rows, cursor, 1, n);
    }
  }

  lemma StaysAhead(rows: set<Row>, cursor: Option<Key>, r: Row, q: Row)
    requires UniqueIds(rows) && r in Rest(StalestFirst, rows, cursor) && q in rows
    requires Before(StalestFirst, KeyOf(StalestFirst, r), KeyOf(StalestFirst, q)) && !IsWholeMs(KeyOf(StalestFirst, r))
    ensures var page := PageOf(StalestFirst, rows, cursor, 1);
            page.next.Some? && r in Rest(StalestFirst, rows, page.next)
  {
    var l := StalestFirst;
    var rest := Rest(l, rows, cursor);
    var s := Ordered(l, rest);
    OrderedLists(l, rest);
    HeadIsFirst(l, s, rest);
    assert |s| >= 2 by {
      assert q in rest && q in s && r in s;
      assert r != q;
      hide Before;
      hide Ordered;
    }
    hide Ordered;
    hide Lists;
    hide UniqueIds;
    assert PageOf(l, rows, cursor, 1).next == Some(Cut(KeyOf(l, s[0])));
    assert s[0] == r || Before(l, KeyOf(l, s[0]), KeyOf(l, r));
  }

  /** Stalest first in pages of one, the walk ends exactly when it shows everything. */
  lemma StalestFirstEndsIff(rows: set<Row>, cursor: Option<Key>)
    requires UniqueIds(rows)
    ensures Ends(StalestFirst, rows, cursor, 1) <==> WholeMsButLast(StalestFirst, Rest(StalestFirst, rows, cursor))
  {
    var l := StalestFirst;
    var rest := Rest(l, rows, cursor);
    hide Walk;
    hide Finished;
    hide ShowsAll;
    hide UniqueIds;
    hide Before;
    hide Rest;
    if WholeMsButLast(l, rest) {
      StalestFirstShowsAllIff(rows, cursor);
      ShowsAllEnds(l, rows, cursor, 1);
    } else {
      var r, q :| r in rest && q in rest && Before(l, KeyOf(l, r), KeyOf(l, q)) && !IsWholeMs(KeyOf(l, r));
      forall n: nat
        ensures !Finished(Walk(l, rows, cursor, 1, n))
      {
        StalestFirstNeverEnds(rows, cursor, r, q, n);
      }
    }
  }

  // ----- Walking a table that changes between pages -----

  /** Page i is read from snapshots[i]; the walk is over when a page has no next cursor. */
  ghost function ChangingWalk(l: Listing, snapshots: seq<set<Row>>, cursor: Option<Key>, limit: nat): seq<Page>
    requires limit >= 1 && forall t :: t in snapshots ==> UniqueIds(t)
  {
    if snapshots == [] then []
    else
      assert snapshots[0] in snapshots;
      var page := PageOf(l, snapshots[0], cursor, limit);
      if page.next.None? then [page] else [page] + ChangingWalk(l, snapshots[1..], page.next, limit)
  }

  lemma ChangingWalkStep(l: Listing, snapshots: seq<set<Row>>, cursor: Option<Key>, limit: nat)
    requires limit >= 1 && snapshots != [] && forall t :: t in snapshots ==> UniqueIds(t)
    ensures snapshots[0] in snapshots
    ensures var page := PageOf(l, snapshots[0], cursor, limit);
            var pages := ChangingWalk(l, snapshots, cursor, limit);
            var later := if page.next.None? then [] else ChangingWalk(l, snapshots[1..], page.next, limit);
            && pages == [page] + later && pages[1..] == later
            && Shown(pages) == page.rows + Shown(later)
            && (page.next.Some? && Finished(pages) ==> Finished(later))
  {
    hide PageOf;
    hide UniqueIds;
    var page := PageOf(l, snapshots[0], cursor, limit);
    var later := if page.next.None? then [] else ChangingWalk(l, snapshots[1..], page.next, limit);
    assert ([page] + later)[1..] == later;
  }

  function Times(rows: seq<Row>, id: int): nat {
    if rows == [] then 0 else Times(rows[..|rows| - 1], id) + if rows[|rows| - 1].id == id then 1 else 0
  }

  lemma {:induction false} TimesConcat(a: seq<Row>, b: seq<Row>, id: int)
    ensures Times(a + b, id) == Times(a, id) + Times(b, id)
    decreases |b|
  {
    if b == [] {
      assert a + b == a;
    } else {
      TimesConcat(a, b[..|b| - 1], id);
      assert (a + b)[..|a + b| - 1] == a + b[..|b| - 1];
    }
  }

  lemma {:induction false} TimesOfDistinct(rows: seq<Row>, id: int)
    requires forall i, j :: 0 <= i < j < |rows| ==> rows[i].id != rows[j].id
    ensures Times(rows, id) == if exists r :: r in rows && r.id == id then 1 else 0
  {
    if rows != [] {
      var front, last := rows[..|rows| - 1], rows[|rows| - 1];
      TimesOfDistinct(front, id);
      assert rows == front + [last];
      if last.id == id {
        assert last in rows;
        assert forall r :: r in front ==> r.id != id;
      } else {
        assert forall r :: r in rows && r.id == id <==> r in front && r.id == id;
      }
    }
  }

  /** The row `id` is there with this key. */
  ghost predicate Has(l: Listing, t: set<Row>, id: int, key: Key) {
    exists r :: r in t && r.id == id && KeyOf(l, r) == key
  }

  /** The page has a next page, and its last row comes strictly before `key`. */
  predicate EndsBefore(l: Listing, page: Page, key: Key) {
    page.next.Some? && page.rows != [] && Before(l, LastKey(l, page), key)
  }

  /** One page in terms of positions: the rows past the cursor, up to the last one shown. */
  lemma PageHolds(l: Listing, t: set<Row>, cursor: Option<Key>, limit: nat, r: Row)
    requires UniqueIds(t) && limit >= 1
    ensures var page := PageOf(l, t, cursor, limit);
            r in page.rows <==> r in t && Past(l, cursor, r) && !EndsBefore(l, page, KeyOf(l, r))
  {
    var page := PageOf(l, t, cursor, limit);
    var s := Ordered(l, Rest(l, t, cursor));
    PageSplitsRest(l, t, cursor, limit);
    OrderedLists(l, Rest(l, t, cursor));
    assert r in s <==> r in t && Past(l, cursor, r);
    if page.next.Some? {
      var last := Some(LastKey(l, page));
      var after := Ordered(l, Rest(l, t, last));
      OrderedLists(l, Rest(l, t, last));
      assert r in after <==> r in t && Past(l, last, r);
      PageUpToLast(l, t, cursor, limit, r);
      hide *;
      assert r in s <==> r in page.rows || r in after;
    }
  }

  lemma PageUpToLast(l: Listing, t: set<Row>, cursor: Option<Key>, limit: nat, r: Row)
    requires UniqueIds(t) && limit >= 1
    ensures r in PageOf(l, t, cursor, limit).rows ==> !EndsBefore(l, PageOf(l, t, cursor, limit), KeyOf(l, r))
    ensures PageOf(l, t, cursor, limit).next.Some? ==> PageOf(l, t, cursor, limit).rows != []
  {
    hide Ordered;
    hide UniqueIds;
    hide Rest;
    hide Before;
    hide Cut;
    var s := Ordered(l, Rest(l, t, cursor));
    OrderedLists(l, Rest(l, t, cursor));
    if |s| > limit && r in s[..limit] {
      LastOfAll(l, s, limit, r);
    }
  }

  lemma LastOfAll(l: Listing, s: seq<Row>, limit: nat, r: Row)
    requires (forall i, j :: 0 <= i < j < |s| ==> Before(l, KeyOf(l, s[i]), KeyOf(l, s[j])))
    requires 1 <= limit <= |s| && r in s[..limit]
    ensures !Before(l, KeyOf(l, s[limit - 1]), KeyOf(l, r))
  {
    var i :| 0 <= i < limit && s[i] == r;
    assert i < limit - 1 ==> Before(l, KeyOf(l, s[i]), KeyOf(l, s[limit - 1]));
  }

  /** Newest first, a row behind the last one shown but later than its cut time is on no page, however many. */
  lemma SkippedForGood(rows: set<Row>, cursor: Option<Key>, limit: nat, q: Row, n: nat)
    requires UniqueIds(rows) && limit >= 1
    requires var page := PageOf(NewestFirst, rows, cursor, limit);
      EndsBefore(NewestFirst, page, KeyOf(NewestFirst, q)) && page.next.value.at < q.updatedAt
    ensures q !in Shown(Walk(NewestFirst, rows, cursor, limit, n))
  {
    hide PageOf;
    hide Walk;
    hide Shown;
    hide UniqueIds;
    hide EndsBefore;
    hide Finished;
    var l := NewestFirst;
    NothingShown(l, rows, cursor, limit);
    if n > 0 {
      var page := PageOf(l, rows, cursor, limit);
      PageHolds(l, rows, cursor, limit, q);
      WalkStep(l, rows, cursor, limit, n);
      if q in Shown(Walk(l, rows, page.next, limit, n - 1)) {
        ShownIsPast(rows, page.next, limit, n - 1, q);
      }
    }
  }

  lemma PageRowsDistinct(l: Listing, t: set<Row>, cursor: Option<Key>, limit: nat)
    requires UniqueIds(t) && limit >= 1
    ensures var rows := PageOf(l, t, cursor, limit).rows;
            (forall i, j :: 0 <= i < j < |rows| ==> rows[i].id != rows[j].id) && forall r :: r in rows ==> r in t
  {
    hide Ordered;
    hide Before;
    hide UniqueIds;
    var s := Ordered(l, Rest(l, t, cursor));
    OrderedLists(l, Rest(l, t, cursor));
    forall i, j | 0 <= i < j < |s|
      ensures s[i].id != s[j].id
    {
      KeysApart(l, t, s[i], s[j]);
    }
    assert forall r :: r in s ==> r in t;
    hide Lists;
  }

  lemma KeysApart(l: Listing, t: set<Row>, r: Row, q: Row)
    requires UniqueIds(t) && r in t && q in t && Before(l, KeyOf(l, r), KeyOf(l, q))
    ensures r.id != q.id
  {
  }

  /** What one page does with row `r`: shown once, or left behind the last row shown, or passed before. */
  lemma PageShowsOrLeaves(l: Listing, t: set<Row>, cursor: Option<Key>, limit: nat, r: Row)
    requires UniqueIds(t) && limit >= 1 && r in t
    ensures var page := PageOf(l, t, cursor, limit);
            Times(page.rows, r.id) == if Past(l, cursor, r) && !EndsBefore(l, page, KeyOf(l, r)) then 1 else 0
  {
    var page := PageOf(l, t, cursor, limit);
    PageHolds(l, t, cursor, limit, r);
    PageRowsDistinct(l, t, cursor, limit);
    TimesOfDistinct(page.rows, r.id);
    hide Past;
    hide PageOf;
    hide EndsBefore;
    if q :| q in page.rows && q.id == r.id {
      assert q == r;
    }
  }

  lemma PageSkipsAbsent(l: Listing, t: set<Row>, cursor: Option<Key>, limit: nat, id: int)
    requires UniqueIds(t) && limit >= 1 && forall r :: r in t ==> r.id != id
    ensures Times(PageOf(l, t, cursor, limit).rows, id) == 0
  {
    PageRowsDistinct(l, t, cursor, limit);
    TimesOfDistinct(PageOf(l, t, cursor, limit).rows, id);
    hide PageOf;
  }

  ghost predicate KeyPast(l: Listing, cursor: Option<Key>, key: Key) {
    cursor.Some? ==> Before(l, cursor.value, key)
  }

  /** The last row shown is a row of the table past the cursor, and the next cursor is its cut key. */
  lemma LastIsPast(l: Listing, t: set<Row>, cursor: Option<Key>, limit: nat)
    requires UniqueIds(t) && limit >= 1
    ensures var page := PageOf(l, t, cursor, limit);
            page.next.Some? ==>
              && page.rows != []
              && page.next == Some(Cut(LastKey(l, page)))
              && page.rows[|page.rows| - 1] in t
              && KeyPast(l, cursor, LastKey(l, page))
  {
    PageSplitsRest(l, t, cursor, limit);
    hide PageOf;
    hide Ordered;
  }

  /** The row with `key` lies behind the last one shown, but not past the next cursor. */
  predicate Skips(l: Listing, page: Page, key: Key) {
    EndsBefore(l, page, key) && !Before(l, page.next.value, key)
  }

  /** The row with `key` lies at or before the last one shown, and yet past the next cursor. */
  predicate Readmits(l: Listing, page: Page, key: Key) {
    page.next.Some? && !EndsBefore(l, page, key) && Before(l, page.next.value, key)
  }

  function CountSkips(l: Listing, pages: seq<Page>, key: Key): nat {
    if pages == [] then 0 else (if Skips(l, pages[0], key) then 1 else 0) + CountSkips(l, pages[1..], key)
  }

  function CountReadmits(l: Listing, pages: seq<Page>, key: Key): nat {
    if pages == [] then 0 else (if Readmits(l, pages[0], key) then 1 else 0) + CountReadmits(l, pages[1..], key)
  }

  /** All snapshots have their own ids apart, and the row `id` with this key. */
  ghost predicate Steady(l: Listing, snapshots: seq<set<Row>>, id: int, key: Key) {
    forall t :: t in snapshots ==> UniqueIds(t) && Has(l, t, id, key)
  }

  /**
   * The account of a row that every snapshot of a finished walk holds with one and the same key: what shows it
   * is its lying past the starting cursor, less the cuts that skip it, plus the cuts that readmit it.
   */
  lemma {:induction false} SteadyRowAccount(
      l: Listing, snapshots: seq<set<Row>>, cursor: Option<Key>, limit: nat, id: int, key: Key)
    requires limit >= 1 && Steady(l, snapshots, id, key)
    requires Finished(ChangingWalk(l, snapshots, cursor, limit))
    ensures var pages := ChangingWalk(l, snapshots, cursor, limit);
            Times(Shown(pages), id) + CountSkips(l, pages, key)
            == (if KeyPast(l, cursor, key) then 1 else 0) + CountReadmits(l, pages, key)
    decreases |snapshots|
  {
    var t := snapshots[0];
    ChangingWalkStep(l, snapshots, cursor, limit);
    hide PageOf;
    hide ChangingWalk;
    hide UniqueIds;
    hide Before;
    hide KeyPast;
    hide Skips;
    hide Readmits;
    hide Shown;
    hide Finished;
    var r :| r in t && r.id == id && KeyOf(l, r) == key;
    var page := PageOf(l, t, cursor, limit);
    OnePageAccount(l, t, cursor, limit, r);
    if page.next.None? {
      TimesConcat(page.rows, Shown([]), id);
      assert Shown([]) == [];
    } else {
      var later := ChangingWalk(l, snapshots[1..], page.next, limit);
      SteadyRowAccount(l, snapshots[1..], page.next, limit, id, key);
      TimesConcat(page.rows, Shown(later), id);
    }
  }

  lemma OnePageAccount(l: Listing, t: set<Row>, cursor: Option<Key>, limit: nat, r: Row)
    requires UniqueIds(t) && limit >= 1 && r in t
    ensures var page := PageOf(l, t, cursor, limit);
            var key := KeyOf(l, r);
            Times(page.rows, r.id) + (if Skips(l, page, key) then 1 else 0)
            + (if page.next.Some? && KeyPast(l, page.next, key) then 1 else 0)
            == (if KeyPast(l, cursor, key) then 1 else 0) + if Readmits(l, page, key) then 1 else 0
  {
    PageShowsOrLeaves(l, t, cursor, limit, r);
    LastIsPast(l, t, cursor, limit);
    hide PageOf;
  }

  /** The next cursor, if any, is the cut key of a row of some snapshot, the last one shown. */
  ghost predicate CutFromLast(l: Listing, snapshots: seq<set<Row>>, p: Page) {
    p.next.Some? ==>
      && p.rows != []
      && p.next == Some(Cut(LastKey(l, p)))
      && exists t :: t in snapshots && p.rows[|p.rows| - 1] in t
  }

  /** Newest first no cut readmits a row, so a steady row is shown once, unless some cut skips it. */
  lemma {:induction false} NothingIsReadmitted(snapshots: seq<set<Row>>, pages: seq<Page>, key: Key)
    requires forall p :: p in pages ==> CutFromLast(NewestFirst, snapshots, p)
    ensures CountReadmits(NewestFirst, pages, key) == 0
  {
    if pages != [] {
      assert pages[0] in pages;
      NothingIsReadmitted(snapshots, pages[1..], key);
      var p := pages[0];
      if p.next.Some? {
        CutDirection(NewestFirst, LastKey(NewestFirst, p), key);
      }
    }
  }

  /** Stalest first no cut skips a row, so a steady row is shown, and again for each cut that readmits it. */
  lemma {:induction false} NothingIsSkipped(snapshots: seq<set<Row>>, pages: seq<Page>, key: Key)
    requires forall p :: p in pages ==> CutFromLast(StalestFirst, snapshots, p)
    ensures CountSkips(StalestFirst, pages, key) == 0
  {
    if pages != [] {
      assert pages[0] in pages;
      NothingIsSkipped(snapshots, pages[1..], key);
      var p := pages[0];
      if p.next.Some? {
        CutDirection(StalestFirst, LastKey(StalestFirst, p), key);
      }
    }
  }

  lemma {:induction false} CursorsAreCut(l: Listing, snapshots: seq<set<Row>>, cursor: Option<Key>, limit: nat)
    requires limit >= 1 && forall t :: t in snapshots ==> UniqueIds(t)
    ensures forall p :: p in ChangingWalk(l, snapshots, cursor, limit) ==> CutFromLast(l, snapshots, p)
  {
    hide PageOf;
    hide UniqueIds;
    hide Cut;
    hide CutFromLast;
    if snapshots != [] {
      ChangingWalkStep(l, snapshots, cursor, limit);
      hide Shown;
      hide Finished;
      var page := PageOf(l, snapshots[0], cursor, limit);
      FirstIsCutFromLast(l, snapshots, cursor, limit);
      if page.next.Some? {
        CursorsAreCut(l, snapshots[1..], page.next, limit);
        forall p | CutFromLast(l, snapshots[1..], p)
          ensures CutFromLast(l, snapshots, p)
        {
          MoreSnapshots(l, snapshots, p);
        }
      }
      hide ChangingWalk;
    }
  }

  lemma FirstIsCutFromLast(l: Listing, snapshots: seq<set<Row>>, cursor: Option<Key>, limit: nat)
    requires limit >= 1 && snapshots != [] && UniqueIds(snapshots[0])
    ensures CutFromLast(l, snapshots, PageOf(l, snapshots[0], cursor, limit))
  {
    LastIsPast(l, snapshots[0], cursor, limit);
    hide PageOf;
    hide Cut;
    hide UniqueIds;
    assert snapshots[0] in snapshots;
  }

  lemma MoreSnapshots(l: Listing, snapshots: seq<set<Row>>, p: Page)
    requires snapshots != [] && CutFromLast(l, snapshots[1..], p)
    ensures CutFromLast(l, snapshots, p)
  {
    hide Cut;
    assert forall t :: t in snapshots[1..] ==> t in snapshots;
  }

  /** Newest first, a steady row past the cursor is shown at most once, and once iff no cut skips it. */
  lemma NewestFirstShowsUnlessSkipped(snapshots: seq<set<Row>>, cursor: Option<Key>, limit: nat, id: int, key: Key)
    requires limit >= 1 && Steady(NewestFirst, snapshots, id, key)
    requires Finished(ChangingWalk(NewestFirst, snapshots, cursor, limit))
    ensures var pages := ChangingWalk(NewestFirst, snapshots, cursor, limit);
            var times := Times(Shown(pages), id);
            && times <= 1
            && (times == 1 <==> KeyPast(NewestFirst, cursor, key) && CountSkips(NewestFirst, pages, key) == 0)
  {
    hide ChangingWalk;
    hide Times;
    hide CountSkips;
    hide CountReadmits;
    SteadyRowAccount(NewestFirst, snapshots, cursor, limit, id, key);
    CursorsAreCut(NewestFirst, snapshots, cursor, limit);
    NothingIsReadmitted(snapshots, ChangingWalk(NewestFirst, snapshots, cursor, limit), key);
  }

  /** Stalest first, it is shown once more for every cut that readmits it. */
  lemma StalestFirstShowsAgain(snapshots: seq<set<Row>>, cursor: Option<Key>, limit: nat, id: int, key: Key)
    requires limit >= 1 && Steady(StalestFirst, snapshots, id, key)
    requires Finished(ChangingWalk(StalestFirst, snapshots, cursor, limit))
    ensures var pages := ChangingWalk(StalestFirst, snapshots, cursor, limit);
            Times(Shown(pages), id)
            == (if KeyPast(StalestFirst, cursor, key) then 1 else 0) + CountReadmits(StalestFirst, pages, key)
  {
    hide ChangingWalk;
    hide Times;
    hide CountSkips;
    hide CountReadmits;
    SteadyRowAccount(StalestFirst, snapshots, cursor, limit, id, key);
    CursorsAreCut(StalestFirst, snapshots, cursor, limit);
    NothingIsSkipped(snapshots, ChangingWalk(StalestFirst, snapshots, cursor, limit), key);
  }

  /** No row of the snapshots has `key` behind it before the cut and not after, or the other way round. */
  ghost predicate NoCutCrosses(l: Listing, snapshots: seq<set<Row>>, key: Key) {
    forall t, q :: t in snapshots && q in t
      ==> (Before(l, Cut(KeyOf(l, q)), key) <==> Before(l, KeyOf(l, q), key))
  }

  lemma WholeMsNeverCross(l: Listing, snapshots: seq<set<Row>>, key: Key)
    requires forall t, q :: t in snapshots && q in t ==> IsWholeMs(KeyOf(l, q))
    ensures NoCutCrosses(l, snapshots, key)
  {
    hide Before;
  }

  /**
   * A row that is in every snapshot the walk reads, with one and the same key that no cut crosses, is shown
   * exactly once by a finished walk that starts before it, whatever is inserted, deleted or moved around it.
   */
  lemma SteadyRowShownOnce(l: Listing, snapshots: seq<set<Row>>, cursor: Option<Key>, limit: nat, id: int, key: Key)
    requires limit >= 1 && Steady(l, snapshots, id, key) && NoCutCrosses(l, snapshots, key)
    requires Finished(ChangingWalk(l, snapshots, cursor, limit))
    ensures Times(Shown(ChangingWalk(l, snapshots, cursor, limit)), id) == if KeyPast(l, cursor, key) then 1 else 0
  {
    var pages := ChangingWalk(l, snapshots, cursor, limit);
    hide ChangingWalk;
    SteadyRowAccount(l, snapshots, cursor, limit, id, key);
    CursorsAreCut(l, snapshots, cursor, limit);
    hide Steady;
    hide Before;
    hide Cut;
    forall p | p in pages
      ensures !Skips(l, p, key) && !Readmits(l, p, key)
    {
      if p.next.Some? {
        var t :| t in snapshots && p.rows[|p.rows| - 1] in t;
      }
    }
    NeverCrossed(l, pages, key);
  }

  lemma {:induction false} NeverCrossed(l: Listing, pages: seq<Page>, key: Key)
    requires forall p :: p in pages ==> !Skips(l, p, key) && !Readmits(l, p, key)
    ensures CountSkips(l, pages, key) == 0 && CountReadmits(l, pages, key) == 0
  {
    hide Skips;
    hide Readmits;
    if pages != [] {
      assert pages[0] in pages;
      NeverCrossed(l, pages[1..], key);
    }
  }

  /** From one snapshot to any later one, row `id` never gets a key further on in the listing. */
  ghost predicate NeverMovesOn(l: Listing, snapshots: seq<set<Row>>, id: int) {
    forall i, j, r, q :: 0 <= i < j < |snapshots| && r in snapshots[i] && q in snapshots[j] && r.id == id && q.id == id
      ==> !Before(l, KeyOf(l, r), KeyOf(l, q))
  }

  /** The cut cannot take the cursor back: newest first never, stalest first not from whole milliseconds. */
  ghost predicate NeverCutBack(l: Listing, t: set<Row>) {
    l == StalestFirst ==> forall r :: r in t ==> IsWholeMs(KeyOf(l, r))
  }

  /** The cursor only moves on. */
  lemma NextIsPast(l: Listing, t: set<Row>, cursor: Option<Key>, limit: nat, key: Key)
    requires UniqueIds(t) && limit >= 1 && NeverCutBack(l, t)
    ensures var page := PageOf(l, t, cursor, limit);
            page.next.Some? && Before(l, page.next.value, key) ==> KeyPast(l, cursor, key) && EndsBefore(l, page, key)
  {
    LastIsPast(l, t, cursor, limit);
    var page := PageOf(l, t, cursor, limit);
    hide PageOf;
    if page.next.Some? {
      CutDirection(l, LastKey(l, page), key);
    }
  }

  /** The row a cut key comes from comes back exactly on a stalest-first page that ends off a whole millisecond. */
  lemma LastRowComesBackIff(l: Listing, t: set<Row>, cursor: Option<Key>, limit: nat)
    requires UniqueIds(t) && limit >= 1 && PageOf(l, t, cursor, limit).next.Some?
    ensures var page := PageOf(l, t, cursor, limit);
            page.rows != [] &&
            (Past(l, page.next, page.rows[|page.rows| - 1]) <==> l == StalestFirst && !IsWholeMs(LastKey(l, page)))
  {
    LastIsPast(l, t, cursor, limit);
    hide PageOf;
  }

  /** Nothing a client sees while the table stays as it is, however many pages it reads, is shown twice. */
  ghost predicate NeverRepeats(l: Listing, rows: set<Row>)
    requires UniqueIds(rows)
  {
    forall limit: nat, n: nat, id :: limit >= 1 ==> Times(Shown(Walk(l, rows, None, limit, n)), id) <= 1
  }

  /** Stalest first, that needs whole milliseconds; newest first it needs nothing. */
  lemma NeverRepeatsIff(l: Listing, rows: set<Row>)
    requires UniqueIds(rows)
    ensures NeverRepeats(l, rows) <==> l == NewestFirst || WholeMsButLast(l, rows)
  {
    hide Walk;
    hide Times;
    hide UniqueIds;
    hide Before;
    assert Rest(l, rows, None) == rows;
    hide Rest;
    if l == NewestFirst || WholeMsButLast(l, rows) {
      forall limit: nat, n: nat, id | limit >= 1
        ensures Times(Shown(Walk(l, rows, None, limit, n)), id) <= 1
      {
        if l == NewestFirst {
          UnchangedNeverRepeats(rows, None, limit, n, id);
        } else {
          StalestFirstShowsAllIff(rows, None);
          assert ShowsAll(l, rows, None, limit);
          WalkShowsAllIff(l, rows, None, limit);
          WalkShowsPrefix(l, rows, None, limit, n);
          ListedOnce(l, rows, Shown(Walk(l, rows, None, limit, n)), id);
        }
      }
    } else {
      var r, q :| r in rows && q in rows && Before(l, KeyOf(l, r), KeyOf(l, q)) && !IsWholeMs(KeyOf(l, r));
      var limit := RepeatsFrom(rows, r, q);
    }
  }

  lemma {:induction false} WalkShowsPrefix(l: Listing, rows: set<Row>, cursor: Option<Key>, limit: nat, n: nat)
    requires UniqueIds(rows) && limit >= 1 && CutsCleanly(l, rows, cursor, limit)
    ensures Shown(Walk(l, rows, cursor, limit, n)) <= Ordered(l, Rest(l, rows, cursor))
    decreases n
  {
    hide PageOf;
    hide Ordered;
    hide Rest;
    hide Walk;
    hide Shown;
    hide Finished;
    hide CleanAt;
    hide CleanPages;
    hide UniqueIds;
    hide Cut;
    NothingShown(l, rows, cursor, limit);
    if n > 0 {
      var page := PageOf(l, rows, cursor, limit);
      PageSplitsRest(l, rows, cursor, limit);
      WalkStep(l, rows, cursor, limit, n);
      if page.next.Some? {
        FullPage(l, rows, cursor, limit);
        CleanCutLeavesTheSame(l, rows, page.rows[limit - 1]);
        WalkShowsPrefix(l, rows, page.next, limit, n - 1);
      }
    }
  }

  lemma ListedOnce(l: Listing, rows: set<Row>, s: seq<Row>, id: int)
    requires UniqueIds(rows) && s <= Ordered(l, rows)
    ensures Times(s, id) <= 1
  {
    OrderedLists(l, rows);
    hide Ordered;
    forall i, j | 0 <= i < j < |s|
      ensures s[i].id != s[j].id
    {
      assert s[i] in Ordered(l, rows) && s[j] in Ordered(l, rows);
      KeysApart(l, rows, s[i], s[j]);
    }
    TimesOfDistinct(s, id);
  }

  lemma {:induction false} UnchangedNeverRepeats(rows: set<Row>, cursor: Option<Key>, limit: nat, n: nat, id: int)
    requires UniqueIds(rows) && limit >= 1
    ensures Times(Shown(Walk(NewestFirst, rows, cursor, limit, n)), id) <= 1
    decreases n
  {
    var l := NewestFirst;
    hide PageOf;
    hide Walk;
    hide UniqueIds;
    hide Times;
    hide Before;
    hide Rest;
    NothingShown(l, rows, cursor, limit);
    if n == 0 {
      ListedOnce(l, rows, [], id);
    } else {
      var page := PageOf(l, rows, cursor, limit);
      WalkStep(l, rows, cursor, limit, n);
      PageListedOnce(l, rows, cursor, limit, id);
      if page.next.Some? {
        var later := Shown(Walk(l, rows, page.next, limit, n - 1));
        UnchangedNeverRepeats(rows, page.next, limit, n - 1, id);
        TimesConcat(page.rows, later, id);
        if r :| r in page.rows && r.id == id {
          forall q | q in later
            ensures q.id != id
          {
            ShownIsPast(rows, page.next, limit, n - 1, q);
            LaterIsAnother(rows, cursor, limit, r, q);
          }
          NoTimes(later, id);
        } else {
          NoTimes(page.rows, id);
        }
      }
    }
  }

  lemma PageListedOnce(l: Listing, rows: set<Row>, cursor: Option<Key>, limit: nat, id: int)
    requires UniqueIds(rows) && limit >= 1
    ensures Times(PageOf(l, rows, cursor, limit).rows, id) <= 1
  {
    PageRowsDistinct(l, rows, cursor, limit);
    TimesOfDistinct(PageOf(l, rows, cursor, limit).rows, id);
  }

  lemma {:induction false} NoTimes(s: seq<Row>, id: int)
    requires forall r :: r in s ==> r.id != id
    ensures Times(s, id) == 0
  {
    if s != [] {
      NoTimes(s[..|s| - 1], id);
      assert s[|s| - 1] in s;
    }
  }

  /** Newest first, a row past the next cursor is none of those on the page. */
  lemma LaterIsAnother(rows: set<Row>, cursor: Option<Key>, limit: nat, r: Row, q: Row)
    requires UniqueIds(rows) && limit >= 1 && r in PageOf(NewestFirst, rows, cursor, limit).rows
    requires PageOf(NewestFirst, rows, cursor, limit).next.Some?
    requires q in Rest(NewestFirst, rows, PageOf(NewestFirst, rows, cursor, limit).next)
    ensures q.id != r.id
  {
    PageHolds(NewestFirst, rows, cursor, limit, r);
    NextIsPast(NewestFirst, rows, cursor, limit, KeyOf(NewestFirst, q));
    hide PageOf;
  }

  /** End the first page at the row that loses microseconds: the second page starts with a row of the first. */
  lemma RepeatsFrom(rows: set<Row>, r: Row, q: Row) returns (limit: nat)
    requires UniqueIds(rows) && r in rows && q in rows
    requires Before(StalestFirst, KeyOf(StalestFirst, r), KeyOf(StalestFirst, q)) && !IsWholeMs(KeyOf(StalestFirst, r))
    ensures limit >= 1
    ensures exists id :: Times(Shown(Walk(StalestFirst, rows, None, limit, 2)), id) >= 2
  {
    var l := StalestFirst;
    var s := Ordered(l, rows);
    assert Rest(l, rows, None) == rows;
    limit := PlaceOf(l, rows, r, q);
    var page := PageOf(l, rows, None, limit);
    var head := HeadComesBack(rows, limit, r);
    var second := PageOf(l, rows, page.next, limit);
    hide *;
    WalkStep(l, rows, None, limit, 2);
    WalkStep(l, rows, page.next, limit, 1);
    NothingShown(l, rows, second.next, limit);
    var later := Shown(Walk(l, rows, page.next, limit, 1));
    assert later == second.rows + [];
    TimesConcat(page.rows, later, head.id);
    ShownAtLeastOnce(page.rows, head);
    ShownAtLeastOnce(later, head);
  }

  lemma PlaceOf(l: Listing, rows: set<Row>, r: Row, q: Row) returns (limit: nat)
    requires UniqueIds(rows) && r in rows && q in rows && Before(l, KeyOf(l, r), KeyOf(l, q))
    ensures 1 <= limit < |Ordered(l, rows)| && Ordered(l, rows)[limit - 1] == r
  {
    hide Ordered;
    hide UniqueIds;
    hide KeyOf;
    var s := Ordered(l, rows);
    OrderedLists(l, rows);
    assert r in s && q in s;
    var i :| 0 <= i < |s| && s[i] == r;
    var j :| 0 <= j < |s| && s[j] == q;
    assert j < i ==> Before(l, KeyOf(l, q), KeyOf(l, r));
    limit := i + 1;
  }

  lemma HeadComesBack(rows: set<Row>, limit: nat, r: Row) returns (head: Row)
    requires UniqueIds(rows)
    requires 1 <= limit < |Ordered(StalestFirst, rows)| && Ordered(StalestFirst, rows)[limit - 1] == r
    requires r in rows && !IsWholeMs(KeyOf(StalestFirst, r))
    ensures var page := PageOf(StalestFirst, rows, None, limit);
            page.next.Some? && head in page.rows && head in PageOf(StalestFirst, rows, page.next, limit).rows
  {
    var l := StalestFirst;
    assert Rest(l, rows, None) == rows;
    var page := PageOf(l, rows, None, limit);
    var rest := Rest(l, rows, page.next);
    var s := Ordered(l, rest);
    hide Ordered;
    hide UniqueIds;
    assert r in rest;
    OrderedLists(l, rest);
    HeadIsFirst(l, s, rest);
    hide Lists;
    head := s[0];
    PageHolds(l, rows, None, limit, head);
    assert PageOf(l, rows, page.next, limit).rows[0] == head;
  }

  lemma {:induction false} ShownAtLeastOnce(s: seq<Row>, r: Row)
    requires r in s
    ensures Times(s, r.id) >= 1
  {
    if s[|s| - 1] != r {
      ShownAtLeastOnce(s[..|s| - 1], r);
    }
  }

  lemma {:induction false} PassedRowNotShown(
      l: Listing, snapshots: seq<set<Row>>, cursor: Option<Key>, limit: nat, id: int)
    requires limit >= 1 && forall t :: t in snapshots ==> UniqueIds(t) && NeverCutBack(l, t)
    requires forall t, r :: t in snapshots && r in t && r.id == id ==> !Past(l, cursor, r)
    ensures Times(Shown(ChangingWalk(l, snapshots, cursor, limit)), id) == 0
    decreases |snapshots|
  {
    if snapshots != [] {
      var t := snapshots[0];
      ChangingWalkStep(l, snapshots, cursor, limit);
      var page := PageOf(l, t, cursor, limit);
      if r :| r in t && r.id == id {
        PageShowsOrLeaves(l, t, cursor, limit, r);
      } else {
        PageSkipsAbsent(l, t, cursor, limit, id);
      }
      hide PageOf;
      hide ChangingWalk;
      if page.next.None? {
        TimesConcat(page.rows, Shown([]), id);
      } else {
        forall u, r | u in snapshots[1..] && r in u && r.id == id
          ensures !Past(l, page.next, r)
        {
          assert u in snapshots;
          NextIsPast(l, t, cursor, limit, KeyOf(l, r));
        }
        hide Past;
        hide UniqueIds;
        PassedRowNotShown(l, snapshots[1..], page.next, limit, id);
        TimesConcat(page.rows, Shown(ChangingWalk(l, snapshots[1..], page.next, limit)), id);
      }
    }
  }

  /** A row whose key never moves on in the listing is shown at most once, finished walk or not. */
  lemma {:induction false} NoRowRepeats(l: Listing, snapshots: seq<set<Row>>, cursor: Option<Key>, limit: nat, id: int)
    requires limit >= 1 && forall t :: t in snapshots ==> UniqueIds(t) && NeverCutBack(l, t)
    requires NeverMovesOn(l, snapshots, id)
    ensures Times(Shown(ChangingWalk(l, snapshots, cursor, limit)), id) <= 1
    decreases |snapshots|
  {
    if snapshots != [] {
      var rest := snapshots[1..];
      ChangingWalkStep(l, snapshots, cursor, limit);
      var page := PageOf(l, snapshots[0], cursor, limit);
      PageRowsDistinct(l, snapshots[0], cursor, limit);
      TimesOfDistinct(page.rows, id);
      hide PageOf;
      hide ChangingWalk;
      if page.next.None? {
        TimesConcat(page.rows, Shown([]), id);
      } else {
        TimesConcat(page.rows, Shown(ChangingWalk(l, rest, page.next, limit)), id);
        if r :| r in page.rows && r.id == id {
          ShownIsPassed(l, snapshots, cursor, limit, r);
          PassedRowNotShown(l, rest, page.next, limit, id);
        } else {
          NeverMovesOnTail(l, snapshots, id);
          hide NeverMovesOn;
          NoRowRepeats(l, rest, page.next, limit, id);
        }
      }
    }
  }

  lemma NeverMovesOnTail(l: Listing, snapshots: seq<set<Row>>, id: int)
    requires snapshots != [] && NeverMovesOn(l, snapshots, id)
    ensures NeverMovesOn(l, snapshots[1..], id)
  {
  }

  /** Once shown, a row that never moves on is not past the next cursor in any later snapshot. */
  lemma ShownIsPassed(l: Listing, snapshots: seq<set<Row>>, cursor: Option<Key>, limit: nat, r: Row)
    requires limit >= 1 && snapshots != [] && UniqueIds(snapshots[0]) && NeverCutBack(l, snapshots[0])
    requires NeverMovesOn(l, snapshots, r.id)
    requires var page := PageOf(l, snapshots[0], cursor, limit); page.next.Some? && r in page.rows
    ensures forall u, q :: u in snapshots[1..] && q in u && q.id == r.id
              ==> !Past(l, PageOf(l, snapshots[0], cursor, limit).next, q)
  {
    var next := PageOf(l, snapshots[0], cursor, limit).next;
    PageHolds(l, snapshots[0], cursor, limit, r);
    NextIsPast(l, snapshots[0], cursor, limit, KeyOf(l, r));
    hide PageOf;
    forall u, q | u in snapshots[1..] && q in u && q.id == r.id
      ensures !Past(l, next, q)
    {
      var j :| 0 <= j < |snapshots[1..]| && snapshots[1..][j] == u;
      assert snapshots[j + 1] == u && !Before(l, KeyOf(l, r), KeyOf(l, q));
    }
  }

  /** `updated_at` only grows, so the newest-first list never shows a row twice. */
  lemma NewestFirstNeverRepeats(snapshots: seq<set<Row>>, cursor: Option<Key>, limit: nat, id: int)
    requires limit >= 1 && forall t :: t in snapshots ==> UniqueIds(t)
    requires forall i, j, r, q ::
      0 <= i < j < |snapshots| && r in snapshots[i] && q in snapshots[j] && r.id == id && q.id == id
      ==> r.updatedAt <= q.updatedAt
    ensures Times(Shown(ChangingWalk(NewestFirst, snapshots, cursor, limit)), id) <= 1
  {
    NoRowRepeats(NewestFirst, snapshots, cursor, limit, id);
  }
}
