/** Reading a project's calls page by page (internal/api/listcalls.go, internal/store/pgstore/list.go,
    queries.sql). Each page is read from the calls as they then stand, after the last row of the page before. */
module Paging {
  import opened Common

  /** Where a call sorts: known keys first, then by key, then by id. */
  datatype Key = Key(unknown: bool, value: real, id: nat)

  datatype Row = Row(key: Key, summary: string)

  /** The page size a request asks for. */
  type Limit = l: nat | l >= 1 witness 1

  datatype Page = Page(items: seq<Row>, next: Option<Key>)

  predicate Before(a: Key, b: Key) {
    if a.unknown != b.unknown then b.unknown
    else if a.value != b.value then a.value < b.value
    else a.id < b.id
  }

  /** Calls without a value come after all with one; then smaller values come first, and of equal ones the older
      call. Of two calls exactly one comes before the other. */
  lemma KeysSort(a: Key, b: Key)
    ensures !a.unknown && b.unknown ==> Before(a, b)
    ensures a.unknown == b.unknown && a.value < b.value ==> Before(a, b)
    ensures a.unknown == b.unknown && a.value == b.value && a.id < b.id ==> Before(a, b)
    ensures a != b ==> (Before(a, b) <==> !Before(b, a))
    ensures !Before(a, a)
  {
  }

  /** The calls a filter matches, in key order: what the query's ORDER BY yields. */
  ghost predicate Ordered(rows: seq<Row>) {
    forall i, j :: 0 <= i < j < |rows| ==> Before(rows[i].key, rows[j].key)
  }

  /** The rows after a cursor. */
  function After(rows: seq<Row>, after: Option<Key>): seq<Row> {
    if rows == [] then []
    else
      var rest := After(rows[1..], after);
      if after.None? || Before(after.value, rows[0].key) then [rows[0]] + rest else rest
  }

  lemma {:induction false} AfterMeans(rows: seq<Row>, after: Option<Key>)
    ensures Ordered(rows) ==> Ordered(After(rows, after))
    ensures forall x :: x in After(rows, after) <==> x in rows && (after.None? || Before(after.value, x.key))
  {
    if rows != [] {
      AfterMeans(rows[1..], after);
      assert rows == [rows[0]] + rows[1..];
    }
  }

  /** The query: the first most rows after a cursor. */
  function Query(rows: seq<Row>, after: Option<Key>, most: nat): seq<Row> {
    var r := After(rows, after);
    if |r| <= most then r else r[..most]
  }

  /** A page, and a cursor if and only if there is more. */
  function PageOf(rows: seq<Row>, after: Option<Key>, limit: Limit): Page
  {
    var r := After(rows, after);
    if |r| <= limit then Page(r, None) else Page(r[..limit], Some(r[limit - 1].key))
  }

  /** Asks for one row more than the page holds, to learn whether another page follows. */
  method ListCalls(table: seq<Row>, after: Option<Key>, limit: Limit) returns (page: Page)
    ensures page == PageOf(table, after, limit)
  {
    var rows := Query(table, after, limit + 1);
    var items, next := [], None;
    for i := 0 to |rows|
      invariant i <= limit && items == rows[..i] && next == None
    {
      if i == limit {
        next := Some(rows[i - 1].key);
        break;
      }
      items := items + [rows[i]];
    }
    page := Page(items, next);
  }

  /** What a reader who follows the cursors is shown, each page from the table as it then stands and with the
      limit it then asks for. */
  function Follow(tables: seq<seq<Row>>, limits: seq<Limit>, after: Option<Key>): seq<Row>
    requires |limits| == |tables|
  {
    if tables == [] then []
    else
      var p := PageOf(tables[0], after, limits[0]);
      if p.next.None? then p.items else p.items + Follow(tables[1..], limits[1..], p.next)
  }

  /** How many of the tables are read before a page without a cursor; one more than there are if none is. */
  function PagesRead(tables: seq<seq<Row>>, limits: seq<Limit>, after: Option<Key>): (n: nat)
    requires |limits| == |tables|
    ensures n <= |tables| + 1
  {
    if tables == [] then 1
    else
      var p := PageOf(tables[0], after, limits[0]);
      if p.next.None? then 1 else 1 + PagesRead(tables[1..], limits[1..], p.next)
  }

  ghost predicate AllOrdered(tables: seq<seq<Row>>) {
    forall t :: t in tables ==> Ordered(t)
  }

  /** The page holds a row after its cursor if and only if that is not after the next one. */
  lemma PageEnds(r: seq<Row>, limit: Limit, x: Row)
    requires Ordered(r) && |r| > limit && x in r
    ensures x in r[..limit] <==> x.key == r[limit - 1].key || Before(x.key, r[limit - 1].key)
  {
    var i :| 0 <= i < |r| && r[i] == x;
    if i < limit {
      assert r[..limit][i] == x;
    } else {
      assert forall j :: 0 <= j < limit ==> Before(r[j].key, x.key);
    }
  }

  lemma PageReaches(rows: seq<Row>, after: Option<Key>, limit: Limit)
    requires Ordered(rows)
    ensures var p := PageOf(rows, after, limit);
            && Ordered(p.items)
            && (forall x :: x in p.items ==> x in rows && (after.Some? ==> Before(after.value, x.key)))
            && (p.next.Some? ==>
                  (after.Some? ==> Before(after.value, p.next.value))
                  && forall x :: x in p.items ==> x.key == p.next.value || Before(x.key, p.next.value))
            && (forall x :: x in rows && (after.None? || Before(after.value, x.key)) ==>
                              (x in p.items <==> p.next.None? || x.key == p.next.value || Before(x.key, p.next.value)))
  {
    var r, p := After(rows, after), PageOf(rows, after, limit);
    AfterMeans(rows, after);
    if p.next.Some? {
      assert r[limit - 1] in r;
      forall x | x in r ensures x in p.items <==> x.key == p.next.value || Before(x.key, p.next.value) {
        PageEnds(r, limit, x);
      }
    }
  }

  lemma OrderedParts(a: seq<Row>, b: seq<Row>, at: Key)
    requires Ordered(a) && Ordered(b)
    requires forall x :: x in a ==> x.key == at || Before(x.key, at)
    requires forall x :: x in b ==> Before(at, x.key)
    ensures Ordered(a + b)
  {
    forall i, j | 0 <= i < |a| && 0 <= j < |b| ensures Before(a[i].key, b[j].key) {
      assert a[i] in a && b[j] in b;
    }
  }

  /** However the table changes between pages and whatever the limits, no page goes back: what is shown is in
      key order, so no row is shown twice with the same key. */
  lemma {:induction false} NeverGoesBack(tables: seq<seq<Row>>, limits: seq<Limit>, after: Option<Key>)
    requires |limits| == |tables| && AllOrdered(tables)
    ensures Ordered(Follow(tables, limits, after))
    ensures after.Some? ==> forall x :: x in Follow(tables, limits, after) ==> Before(after.value, x.key)
  {
    if tables != [] {
      var p := PageOf(tables[0], after, limits[0]);
      PageReaches(tables[0], after, limits[0]);
      if p.next.Some? {
        NeverGoesBack(tables[1..], limits[1..], p.next);
        var rest := Follow(tables[1..], limits[1..], p.next);
        OrderedParts(p.items, rest, p.next.value);
      }
    }
  }

  // ----- how often a call is shown -----

  /** A table holds a call at most once. */
  ghost predicate OneRowEach(rows: seq<Row>) {
    forall i, j :: 0 <= i < j < |rows| ==> rows[i].key.id != rows[j].key.id
  }

  ghost predicate Listing(rows: seq<Row>) {
    Ordered(rows) && OneRowEach(rows)
  }

  ghost predicate AllListings(tables: seq<seq<Row>>) {
    forall t :: t in tables ==> Listing(t)
  }

  predicate Has(rows: seq<Row>, id: nat) {
    exists i :: 0 <= i < |rows| && rows[i].key.id == id
  }

  /** Where a table sorts a call. */
  function KeyOf(rows: seq<Row>, id: nat): (k: Key)
    requires Has(rows, id)
    ensures exists i :: 0 <= i < |rows| && rows[i].key == k && k.id == id
  {
    if rows[0].key.id == id then rows[0].key else KeyOf(rows[1..], id)
  }

  /** How many of the rows shown are the call's. */
  function Times(rows: seq<Row>, id: nat): nat {
    if rows == [] then 0 else (if rows[0].key.id == id then 1 else 0) + Times(rows[1..], id)
  }

  predicate Ahead(cursor: Option<Key>, k: Key) {
    cursor.None? || Before(cursor.value, k)
  }

  predicate AllHave(tables: seq<seq<Row>>, id: nat) {
    forall t :: t in tables ==> Has(t, id)
  }

  /** How often, between one page and the next, the call moved from behind the cursor to ahead of it. */
  function MovesAhead(tables: seq<seq<Row>>, limits: seq<Limit>, after: Option<Key>, id: nat): nat
    requires |limits| == |tables| && AllHave(tables, id)
  {
    if |tables| < 2 then 0
    else
      var next := PageOf(tables[0], after, limits[0]).next;
      if next.None? then 0
      else (if !Ahead(next, KeyOf(tables[0], id)) && Ahead(next, KeyOf(tables[1], id)) then 1 else 0)
           + MovesAhead(tables[1..], limits[1..], next, id)
  }

  /** How often it moved from ahead of the cursor to behind it. */
  function MovesBehind(tables: seq<seq<Row>>, limits: seq<Limit>, after: Option<Key>, id: nat): nat
    requires |limits| == |tables| && AllHave(tables, id)
  {
    if |tables| < 2 then 0
    else
      var next := PageOf(tables[0], after, limits[0]).next;
      if next.None? then 0
      else (if Ahead(next, KeyOf(tables[0], id)) && !Ahead(next, KeyOf(tables[1], id)) then 1 else 0)
           + MovesBehind(tables[1..], limits[1..], next, id)
  }

  lemma {:induction false} TimesConcat(a: seq<Row>, b: seq<Row>, id: nat)
    ensures Times(a + b, id) == Times(a, id) + Times(b, id)
  {
    if a == [] {
      assert a + b == b;
    } else {
      assert (a + b)[1..] == a[1..] + b;
      TimesConcat(a[1..], b, id);
    }
  }

  lemma {:induction false} ListedTimes(rows: seq<Row>, id: nat)
    requires OneRowEach(rows)
    ensures Times(rows, id) == if Has(rows, id) then 1 else 0
  {
    if rows != [] {
      ListedTimes(rows[1..], id);
      if rows[0].key.id == id {
        assert forall j :: 0 <= j < |rows[1..]| ==> rows[1..][j].key.id != id;
      } else if Has(rows, id) {
        var i :| 0 <= i < |rows| && rows[i].key.id == id;
        assert rows[1..][i - 1].key.id == id;
      } else {
        assert forall j :: 0 <= j < |rows[1..]| ==> rows[1..][j].key.id == rows[j + 1].key.id;
      }
    }
  }

  lemma {:induction false} AfterIsListing(rows: seq<Row>, after: Option<Key>)
    requires OneRowEach(rows)
    ensures OneRowEach(After(rows, after))
  {
    if rows != [] {
      AfterIsListing(rows[1..], after);
      AfterMeans(rows[1..], after);
      var rest := After(rows[1..], after);
      forall j | 0 <= j < |rest| ensures rest[j].key.id != rows[0].key.id {
        assert rest[j] in rest;
        var i :| 0 <= i < |rows[1..]| && rows[1..][i] == rest[j];
        assert rows[i + 1] == rest[j];
      }
    }
  }

  lemma OneRowOf(rows: seq<Row>, id: nat) returns (r: Row)
    requires OneRowEach(rows) && Has(rows, id)
    ensures r in rows && r.key == KeyOf(rows, id)
    ensures forall x :: x in rows && x.key.id == id ==> x == r
  {
    var k := KeyOf(rows, id);
    var i :| 0 <= i < |rows| && rows[i].key == k;
    r := rows[i];
  }

  /** Rows of a listing show a call as often as they hold its one row. */
  lemma TimesOfSome(shown: seq<Row>, rows: seq<Row>, id: nat, r: Row)
    requires OneRowEach(shown) && (forall x :: x in shown ==> x in rows)
    requires r.key.id == id && forall x :: x in rows && x.key.id == id ==> x == r
    ensures Times(shown, id) == if r in shown then 1 else 0
  {
    ListedTimes(shown, id);
    if Has(shown, id) {
      var j :| 0 <= j < |shown| && shown[j].key.id == id;
      assert shown[j] in shown;
    }
  }

  /** A page shows a call if and only if it lies ahead of its cursor and not ahead of the next one. */
  lemma PageShows(rows: seq<Row>, after: Option<Key>, limit: Limit, id: nat)
    requires Listing(rows) && Has(rows, id)
    ensures var p, k := PageOf(rows, after, limit), KeyOf(rows, id);
            && Times(p.items, id) == (if Ahead(after, k) && (p.next.None? || !Ahead(p.next, k)) then 1 else 0)
            && (p.next.Some? && Ahead(p.next, k) ==> Ahead(after, k))
  {
    var p := PageOf(rows, after, limit);
    var r := OneRowOf(rows, id);
    PageReaches(rows, after, limit);
    AfterIsListing(rows, after);
    TimesOfSome(p.items, rows, id, r);
  }

  /** A call in every table read is shown once, if it starts ahead of the cursor, and once more for every move
      ahead and once less for every move behind. */
  lemma {:induction false} TimesShown(tables: seq<seq<Row>>, limits: seq<Limit>, after: Option<Key>, id: nat)
    requires |limits| == |tables| > 0 && AllListings(tables) && AllHave(tables, id)
    requires PagesRead(tables, limits, after) <= |tables|
    ensures Times(Follow(tables, limits, after), id)
            == (if Ahead(after, KeyOf(tables[0], id)) then 1 else 0)
               + MovesAhead(tables, limits, after, id) - MovesBehind(tables, limits, after, id)
  {
    var p := PageOf(tables[0], after, limits[0]);
    assert tables[0] in tables;
    PageShows(tables[0], after, limits[0], id);
    if p.next.Some? {
      assert forall t :: t in tables[1..] ==> t in tables;
      assert PagesRead(tables[1..], limits[1..], p.next) == PagesRead(tables, limits, after) - 1;
      TimesShown(tables[1..], limits[1..], p.next, id);
      TimesConcat(p.items, Follow(tables[1..], limits[1..], p.next), id);
    }
  }

  /** From the first page to the last a call in every table read is shown exactly once if and only if its moves
      ahead of the cursor and behind it are as many. */
  lemma ShownOnceIff(tables: seq<seq<Row>>, limits: seq<Limit>, id: nat)
    requires |limits| == |tables| > 0 && AllListings(tables) && AllHave(tables, id)
    requires PagesRead(tables, limits, None) <= |tables|
    ensures Times(Follow(tables, limits, None), id) == 1
            <==> MovesAhead(tables, limits, None, id) == MovesBehind(tables, limits, None, id)
  {
    TimesShown(tables, limits, None, id);
  }

  lemma {:induction false} KeptKeyDoesNotMove(tables: seq<seq<Row>>, limits: seq<Limit>, after: Option<Key>, k: Key)
    requires |limits| == |tables| && AllHave(tables, k.id)
    requires forall t :: t in tables ==> KeyOf(t, k.id) == k
    ensures MovesAhead(tables, limits, after, k.id) == 0 == MovesBehind(tables, limits, after, k.id)
  {
    if |tables| >= 2 {
      assert tables[0] in tables && tables[1] in tables && forall t :: t in tables[1..] ==> t in tables;
      var next := PageOf(tables[0], after, limits[0]).next;
      if next.Some? {
        KeptKeyDoesNotMove(tables[1..], limits[1..], next, k);
      }
    }
  }

  /** So a call that keeps its sort key, whatever else of it changes, is shown exactly once. */
  lemma StableCallIsShownOnce(tables: seq<seq<Row>>, limits: seq<Limit>, k: Key)
    requires |limits| == |tables| > 0 && AllListings(tables) && AllHave(tables, k.id)
    requires PagesRead(tables, limits, None) <= |tables|
    requires forall t :: t in tables ==> KeyOf(t, k.id) == k
    ensures Times(Follow(tables, limits, None), k.id) == 1
  {
    KeptKeyDoesNotMove(tables, limits, None, k);
    TimesShown(tables, limits, None, k.id);
  }

  // ----- a table that does not change -----

  /** In an ordered list whose first row is after the cursor, every row is. */
  lemma {:induction false} AfterAll(rows: seq<Row>, after: Option<Key>)
    requires Ordered(rows) && rows != [] && (after.None? || Before(after.value, rows[0].key))
    ensures After(rows, after) == rows
  {
    if |rows| > 1 {
      AfterAll(rows[1..], after);
    }
  }

  lemma {:induction false} AfterCursor(rows: seq<Row>, i: nat)
    requires Ordered(rows) && i < |rows|
    ensures After(rows, Some(rows[i].key)) == rows[i + 1..]
  {
    if i > 0 {
      AfterCursor(rows[1..], i - 1);
    } else if |rows| > 1 {
      AfterAll(rows[1..], Some(rows[0].key));
    }
  }

  /** The rows after a cursor are the last of an ordered list. */
  lemma {:induction false} AfterIsRest(rows: seq<Row>, after: Option<Key>) returns (k: nat)
    requires Ordered(rows)
    ensures k <= |rows| && After(rows, after) == rows[k..]
  {
    k := 0;
    if rows != [] {
      if after.None? || Before(after.value, rows[0].key) {
        AfterAll(rows, after);
      } else {
        var rest := AfterIsRest(rows[1..], after);
        k := rest + 1;
        assert rows[1..][rest..] == rows[k..];
      }
    }
  }

  lemma AfterPage(rows: seq<Row>, after: Option<Key>, limit: Limit)
    requires Ordered(rows) && |After(rows, after)| > limit
    ensures After(rows, PageOf(rows, after, limit).next) == After(rows, after)[limit..]
  {
    var k := AfterIsRest(rows, after);
    var last := k + limit - 1;
    AfterCursor(rows, last);
    assert rows[k..][limit - 1] == rows[last] && rows[k..][limit..] == rows[last + 1..];
  }

  /** A page and what follows its cursor make up the rest. */
  lemma PageSplitsTheRest(rows: seq<Row>, after: Option<Key>, limit: Limit)
    requires Ordered(rows)
    ensures var r, p := After(rows, after), PageOf(rows, after, limit);
            if p.next.None? then p.items == r && |r| <= limit
            else |r| > limit && p.items == r[..limit] && After(rows, p.next) == r[limit..]
    ensures var p := PageOf(rows, after, limit);
            p.next.Some? ==> |After(rows, p.next)| == |After(rows, after)| - limit
  {
    if PageOf(rows, after, limit).next.Some? {
      AfterPage(rows, after, limit);
    }
  }

  ghost predicate Unchanged(tables: seq<seq<Row>>, rows: seq<Row>) {
    forall t :: t in tables ==> t == rows
  }

  /** Following the cursors through a table that does not change, with any limits, shows the rest of it, all
      of it and in order, and ends. */
  lemma {:induction false} RestIsShown(tables: seq<seq<Row>>, limits: seq<Limit>, rows: seq<Row>, after: Option<Key>)
    requires |limits| == |tables| > |After(rows, after)|
    requires Ordered(rows) && Unchanged(tables, rows)
    ensures Follow(tables, limits, after) == After(rows, after)
    ensures PagesRead(tables, limits, after) <= |tables|
  {
    var p := PageOf(rows, after, limits[0]);
    PageSplitsTheRest(rows, after, limits[0]);
    assert tables[0] in tables;
    var r := After(rows, after);
    assert |r| > limits[0] ==> r == r[..limits[0]] + r[limits[0]..];
    if p.next.Some? {
      assert forall t :: t in tables[1..] ==> t in tables;
      RestIsShown(tables[1..], limits[1..], rows, p.next);
    }
  }

  /** From the first page that is the whole table, every row once. */
  lemma WholeTableIsShown(tables: seq<seq<Row>>, limits: seq<Limit>, rows: seq<Row>)
    requires |limits| == |tables| > |rows|
    requires Ordered(rows) && Unchanged(tables, rows)
    ensures Follow(tables, limits, None) == rows && PagesRead(tables, limits, None) <= |tables|
  {
    if rows != [] {
      AfterAll(rows, None);
    }
    RestIsShown(tables, limits, rows, None);
  }

  function PagesFor(n: nat, d: Limit): nat {
    if n <= d then 1 else 1 + PagesFor(n - d, d)
  }

  lemma {:induction false} ReadsPagesFor(tables: seq<seq<Row>>, limits: seq<Limit>, rows: seq<Row>, limit: Limit,
                                         after: Option<Key>)
    requires |limits| == |tables| > |After(rows, after)|
    requires Ordered(rows) && Unchanged(tables, rows)
    requires forall l :: l in limits ==> l == limit
    ensures PagesRead(tables, limits, after) == PagesFor(|After(rows, after)|, limit)
  {
    PageSplitsTheRest(rows, after, limit);
    var p := PageOf(rows, after, limit);
    assert tables[0] in tables && limits[0] in limits;
    if p.next.Some? {
      var rest, restLimits := tables[1..], limits[1..];
      assert |rest| == |tables| - 1 > |After(rows, p.next)|;
      assert forall t :: t in rest ==> t in tables;
      assert forall l :: l in restLimits ==> l in limits;
      ReadsPagesFor(rest, restLimits, rows, limit, p.next);
      assert PagesRead(tables, limits, after) == 1 + PagesRead(rest, restLimits, p.next);
    } else {
      assert PagesRead(tables, limits, after) == 1;
    }
  }

  /** q is n divided by d, rounded up. */
  predicate RoundsUp(n: nat, d: Limit, q: nat) {
    (q - 1) * d < n <= q * d
  }

  lemma {:induction false} PagesForRoundsUp(n: nat, d: Limit)
    requires n > 0
    ensures RoundsUp(n, d, PagesFor(n, d))
  {
    if n > d {
      PagesForRoundsUp(n - d, d);
      var q := PagesFor(n - d, d);
      assert (q + 1) * d == q * d + d && (q - 1) * d + d == q * d;
    }
  }

  /** With one limit throughout, the pages are the rows divided by it, rounded up, and one when there are none. */
  lemma PagesOfAFixedLimit(tables: seq<seq<Row>>, limits: seq<Limit>, rows: seq<Row>, limit: Limit)
    requires |limits| == |tables| > |rows|
    requires Ordered(rows) && Unchanged(tables, rows)
    requires forall l :: l in limits ==> l == limit
    ensures if rows == [] then PagesRead(tables, limits, None) == 1
            else RoundsUp(|rows|, limit, PagesRead(tables, limits, None))
  {
    if rows != [] {
      AfterAll(rows, None);
      PagesForRoundsUp(|rows|, limit);
    }
    ReadsPagesFor(tables, limits, rows, limit, None);
  }

  // ----- a row that moves -----

  /** Two pages of two: the first from one table, the second from another. */
  lemma TwoPages(tables: seq<seq<Row>>, limits: seq<Limit>, rest: seq<Row>)
    requires |tables| == 2 && limits == [2, 2] && AllOrdered(tables) && |tables[0]| == 3
    requires rest == After(tables[1], Some(tables[0][1].key)) && |rest| <= 2
    ensures Follow(tables, limits, None) == tables[0][..2] + rest && PagesRead(tables, limits, None) == 2
  {
    AfterAll(tables[0], None);
    assert PageOf(tables[0], None, 2) == Page(tables[0][..2], Some(tables[0][1].key));
    assert PageOf(tables[1], Some(tables[0][1].key), 2) == Page(rest, None);
  }

  lemma ThreeOrdered(rows: seq<Row>)
    requires |rows| == 3 && Before(rows[0].key, rows[1].key) && Before(rows[1].key, rows[2].key)
    ensures Ordered(rows)
  {
  }

  /** Only the creation time is fixed by a snapshot. A call whose sort key changes between two pages can move
      behind the cursor, and is then never shown. */
  lemma MovedRowIsMissed(a: Row, b: Row, c: Row, moved: Row, tables: seq<seq<Row>>, limits: seq<Limit>)
    requires a.key == Key(false, 1.0, 1) && b.key == Key(false, 2.0, 2)
    requires c.key == Key(false, 3.0, 3) && moved.key == Key(false, 0.5, 3)
    requires tables == [[a, b, c], [moved, a, b]] && limits == [2, 2]
    ensures AllOrdered(tables)
    ensures Follow(tables, limits, None) == [a, b] && PagesRead(tables, limits, None) == 2
  {
    ThreeOrdered(tables[0]);
    ThreeOrdered(tables[1]);
    AfterCursor(tables[1], 2);
    TwoPages(tables, limits, []);
  }

  /** Or it moves ahead of the cursor after it was shown, and is shown again. */
  lemma MovedRowIsShownTwice(a: Row, b: Row, c: Row, moved: Row, tables: seq<seq<Row>>, limits: seq<Limit>)
    requires a.key == Key(false, 1.0, 1) && b.key == Key(false, 2.0, 2)
    requires c.key == Key(false, 3.0, 3) && moved.key == Key(false, 4.0, 1)
    requires tables == [[a, b, c], [b, c, moved]] && limits == [2, 2]
    ensures AllOrdered(tables)
    ensures Follow(tables, limits, None) == [a, b, c, moved] && PagesRead(tables, limits, None) == 2
  {
    ThreeOrdered(tables[0]);
    ThreeOrdered(tables[1]);
    AfterCursor(tables[1], 0);
    assert tables[1][1..] == [c, moved];
    TwoPages(tables, limits, [c, moved]);
  }
}
