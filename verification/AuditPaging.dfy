/** Keyset paging of the audit log, newest first. */
module AuditPaging {
  import opened Prelude
  import opened Sorting

  // ---- the cursor text -----------------------------------------------------------

  function EncodeCursor(at: string, id: string): string {
    at + "|" + id
  }

  /** The position of the last separator, or -1. */
  function LastSeparator(s: string): (i: int)
    ensures -1 <= i < |s|
    ensures i >= 0 ==> s[i] == '|' && '|' !in s[i + 1..]
    ensures i < 0 ==> '|' !in s
  {
    if s == [] then -1
    else if s[|s| - 1] == '|' then |s| - 1
    else
      var i := LastSeparator(s[..|s| - 1]);
      assert s == s[..|s| - 1] + [s[|s| - 1]];
      assert i >= 0 ==> s[i + 1..] == s[..|s| - 1][i + 1..] + [s[|s| - 1]];
      i
  }

  /** The time part must be one the date parser accepts. */
  function DecodeCursor(cursor: string, isDate: string -> bool): Option<(string, string)> {
    var separator := LastSeparator(cursor);
    if separator <= 0 || separator == |cursor| - 1 || !isDate(cursor[..separator]) then None
    else Some((cursor[..separator], cursor[separator + 1..]))
  }

  /** A cursor comes back as it was exactly when it has a time and an id, and the id has no separator. */
  lemma CursorRoundTrip(at: string, id: string, isDate: string -> bool)
    ensures DecodeCursor(EncodeCursor(at, id), isDate) == Some((at, id))
            <==> at != "" && isDate(at) && id != "" && '|' !in id
  {
    var s := EncodeCursor(at, id);
    var i := LastSeparator(s);
    assert s[|at|] == '|' && s[|at| + 1..] == id && s[..|at|] == at;
    if '|' !in id {
      assert i <= |at| by { AfterPrefix(s, |at|, i); }
      assert i >= |at| by { AfterPrefix(s, i, |at|); }
    }
  }

  lemma AfterPrefix(s: string, from: int, k: int)
    requires -1 <= from < |s| && -1 <= k < |s|
    requires k >= 0 ==> s[k] == '|'
    requires '|' !in s[from + 1..]
    ensures k <= from
  {
    assert forall j :: from < j < |s| ==> s[j] == s[from + 1..][j - from - 1] != '|';
  }

  // ---- a page ------------------------------------------------------------------------

  /** A log entry's sort key; ids are unique, times are not. */
  datatype Row = Row(at: int, id: int)

  predicate Older(a: Row, b: Row) {
    a.at < b.at || (a.at == b.at && a.id < b.id)
  }

  /** Newest first. */
  predicate Before(a: Row, b: Row) {
    !Older(a, b)
  }

  function Itself(r: Row): Row {
    r
  }

  function Matching(db: seq<Row>, cursor: Option<Row>): seq<Row> {
    if db == [] then []
    else
      Matching(db[..|db| - 1], cursor)
      + if cursor == None || Older(db[|db| - 1], cursor.value) then [db[|db| - 1]] else []
  }

  /** Everything the query would return without a limit. */
  function Listing(db: seq<Row>, cursor: Option<Row>): seq<Row> {
    Sort(Matching(db, cursor), Itself, Before)
  }

  datatype Page = Page(entries: seq<Row>, hasMore: bool, next: Option<Row>)

  /** One row more than asked for is fetched, to learn whether there is another page. */
  function ListPage(db: seq<Row>, cursor: Option<Row>, limit: nat): Page {
    var listing := Listing(db, cursor);
    var rows := listing[..Min(limit + 1, |listing|)];
    var hasMore := |rows| > limit;
    var entries := if hasMore then rows[..limit] else rows;
    Page(entries, hasMore, if hasMore && entries != [] then Some(entries[|entries| - 1]) else None)
  }

  /** Following the cursor; `inserted` are the batches written to the log between pages. */
  function Browse(db: seq<Row>, cursor: Option<Row>, limit: nat, inserted: seq<seq<Row>>): (seq<Row>, bool)
    decreases |inserted|
  {
    var page := ListPage(db, cursor, limit);
    if page.next == None then (page.entries, true)
    else if inserted == [] then (page.entries, false)
    else
      var later := Browse(db + inserted[0], page.next, limit, inserted[1..]);
      (page.entries + later.0, later.1)
  }

  predicate Unique(db: seq<Row>) {
    forall i, j :: 0 <= i < j < |db| ==> db[i] != db[j]
  }

  /** Every row written meanwhile is newer than every row there was to return. */
  predicate NewerThanAll(inserted: seq<seq<Row>>, db: seq<Row>, cursor: Option<Row>) {
    forall batch, row, seen :: batch in inserted && row in batch && seen in Matching(db, cursor) ==> Older(seen, row)
  }

  // ---- the order -----------------------------------------------------------------------

  lemma BeforeIsTotalOrder()
    ensures TotalOrder(Before)
  {
  }

  lemma {:induction false} MatchingIs(db: seq<Row>, cursor: Option<Row>)
    ensures forall r :: r in Matching(db, cursor) <==> r in db && (cursor == None || Older(r, cursor.value))
    ensures Unique(db) ==> Unique(Matching(db, cursor))
  {
    if db != [] {
      var rest, last := db[..|db| - 1], db[|db| - 1];
      MatchingIs(rest, cursor);
      assert db == rest + [last];
      assert Unique(db) ==> last !in rest;
    }
  }

  lemma {:induction false} MatchingAppend(a: seq<Row>, b: seq<Row>, cursor: Option<Row>)
    ensures Matching(a + b, cursor) == Matching(a, cursor) + Matching(b, cursor)
  {
    if b == [] {
      assert a + b == a;
    } else {
      assert (a + b)[..|a + b| - 1] == a + b[..|b| - 1];
      MatchingAppend(a, b[..|b| - 1], cursor);
    }
  }

  lemma MatchingWithout(b: seq<Row>, k: nat, cursor: Option<Row>)
    requires k < |b|
    ensures multiset(Matching(b, cursor))
            == multiset(Matching(b[..k] + b[k + 1..], cursor)) + multiset(Matching([b[k]], cursor))
  {
    hide Matching;
    assert b == (b[..k] + [b[k]]) + b[k + 1..];
    MatchingAppend(b[..k] + [b[k]], b[k + 1..], cursor);
    MatchingAppend(b[..k], [b[k]], cursor);
    MatchingAppend(b[..k], b[k + 1..], cursor);
  }

  lemma {:induction false} MatchingRearranges(a: seq<Row>, b: seq<Row>, cursor: Option<Row>)
    requires multiset(a) == multiset(b)
    ensures multiset(Matching(a, cursor)) == multiset(Matching(b, cursor))
    decreases |a|
  {
    hide Matching;
    if a == [] {
      assert |multiset(b)| == 0;
      assert b == [];
    } else {
      var last := a[|a| - 1];
      assert last in multiset(b) by { assert last in multiset(a); }
      var k :| 0 <= k < |b| && b[k] == last;
      RemoveBoth(a, b, k);
      MatchingRearranges(a[..|a| - 1], b[..k] + b[k + 1..], cursor);
      MatchingWithout(b, k, cursor);
      MatchingWithout(a, |a| - 1, cursor);
      assert a[..|a| - 1] + a[|a|..] == a[..|a| - 1];
    }
  }

  /** Narrowing to an older cursor in two steps is narrowing once. */
  lemma {:induction false} MatchingTwice(db: seq<Row>, cursor: Option<Row>, next: Row)
    requires cursor == None || Older(next, cursor.value)
    ensures Matching(Matching(db, cursor), Some(next)) == Matching(db, Some(next))
  {
    if db != [] {
      var rest, last := db[..|db| - 1], db[|db| - 1];
      MatchingTwice(rest, cursor, next);
      var kept := if cursor == None || Older(last, cursor.value) then [last] else [];
      MatchingAppend(Matching(rest, cursor), kept, Some(next));
      assert Matching([last], Some(next)) == if Older(last, next) then [last] else [] by { assert [last][..0] == []; }
    }
  }

  lemma {:induction false} NoneMatch(rows: seq<Row>, cursor: Row)
    requires forall r :: r in rows ==> !Older(r, cursor)
    ensures Matching(rows, Some(cursor)) == []
  {
    if rows != [] {
      NoneMatch(rows[..|rows| - 1], cursor);
      assert rows[|rows| - 1] in rows;
    }
  }

  lemma {:induction false} AllMatch(rows: seq<Row>, cursor: Option<Row>)
    requires forall r :: r in rows ==> cursor == None || Older(r, cursor.value)
    ensures Matching(rows, cursor) == rows
  {
    if rows != [] {
      assert forall r :: r in rows[..|rows| - 1] ==> r in rows;
      AllMatch(rows[..|rows| - 1], cursor);
      assert rows[|rows| - 1] in rows;
      assert rows == rows[..|rows| - 1] + [rows[|rows| - 1]];
    }
  }

  lemma ListingIsDescending(db: seq<Row>, cursor: Option<Row>)
    requires Unique(db)
    ensures var l := Listing(db, cursor);
            && multiset(l) == multiset(Matching(db, cursor))
            && |l| == |Matching(db, cursor)|
            && forall i, j :: 0 <= i < j < |l| ==> Older(l[j], l[i])
  {
    hide Matching, Sort;
    var rows, l := Matching(db, cursor), Listing(db, cursor);
    BeforeIsTotalOrder();
    MatchingIs(db, cursor);
    SortPermutes(rows, Itself, Before);
    SortSorts(rows, Itself, Before);
    forall i, j | 0 <= i < j < |l| ensures Older(l[j], l[i]) {
      assert Before(l[i], l[j]);
      if l[i] == l[j] {
        TwiceCounted(l, i, j);
        OnceCounted(rows, l[i]);
      }
    }
  }

  lemma TwiceCounted(l: seq<Row>, i: nat, j: nat)
    requires i < j < |l| && l[i] == l[j]
    ensures multiset(l)[l[i]] >= 2
  {
    assert l == l[..j] + [l[j]] + l[j + 1..];
    assert l[i] in l[..j];
  }

  lemma OnceCounted(rows: seq<Row>, r: Row)
    requires Unique(rows)
    ensures multiset(rows)[r] <= 1
  {
    if r in rows {
      var k :| 0 <= k < |rows| && rows[k] == r;
      assert rows == rows[..k] + [rows[k]] + rows[k + 1..];
      assert r !in rows[..k] && r !in rows[k + 1..];
    }
  }

  /** The rows after the `k`th of a listing are the listing after that row. */
  lemma RestOfListing(db: seq<Row>, cursor: Option<Row>, k: nat)
    requires Unique(db) && k < |Listing(db, cursor)|
    ensures Listing(db, Some(Listing(db, cursor)[k])) == Listing(db, cursor)[k + 1..]
  {
    hide Sort, Matching;
    var l := Listing(db, cursor);
    var next := l[k];
    ListingIsDescending(db, cursor);
    MatchingIs(db, cursor);
    assert next in multiset(Matching(db, cursor));
    var rest := l[k + 1..];
    assert l == l[..k + 1] + rest;
    MatchingAppend(l[..k + 1], rest, Some(next));
    NoneMatch(l[..k + 1], next);
    AllMatch(rest, Some(next));
    MatchingRearranges(l, Matching(db, cursor), Some(next));
    MatchingTwice(db, cursor, next);
    assert multiset(rest) == multiset(Matching(db, Some(next)));
    BeforeIsTotalOrder();
    SortPermutes(Matching(db, Some(next)), Itself, Before);
    SortSorts(Matching(db, Some(next)), Itself, Before);
    assert Sorted(rest, Itself, Before);
    SortedIsUnique(rest, Listing(db, Some(next)), Itself, Before);
  }

  /** Newer rows do not show up below a cursor that has already been returned. */
  lemma InsertedStayAbove(db: seq<Row>, cursor: Option<Row>, next: Row, batch: seq<Row>)
    requires next in Matching(db, cursor)
    requires forall row, seen :: row in batch && seen in Matching(db, cursor) ==> Older(seen, row)
    ensures Matching(db + batch, Some(next)) == Matching(db, Some(next))
  {
    hide Matching;
    MatchingAppend(db, batch, Some(next));
    NoneMatch(batch, next);
    assert Matching(db, Some(next)) + [] == Matching(db, Some(next));
  }

  lemma NextPage(db: seq<Row>, cursor: Option<Row>, limit: nat, batch: seq<Row>, rest: seq<seq<Row>>)
    requires Unique(db) && NewerThanAll([batch] + rest, db, cursor)
    requires limit >= 1 && |Listing(db, cursor)| > limit
    ensures var next := Listing(db, cursor)[limit - 1];
            && ListPage(db, cursor, limit) == Page(Listing(db, cursor)[..limit], true, Some(next))
            && Listing(db + batch, Some(next)) == Listing(db, cursor)[limit..]
            && NewerThanAll(rest, db + batch, Some(next))
            && |Matching(db + batch, Some(next))| < |Matching(db, cursor)|
  {
    hide Sort, Matching;
    var l := Listing(db, cursor);
    var next := l[limit - 1];
    ListingIsDescending(db, cursor);
    assert next in multiset(Matching(db, cursor));
    assert l[..limit + 1][..limit] == l[..limit];
    RestOfListing(db, cursor, limit - 1);
    assert batch in [batch] + rest && forall b :: b in rest ==> b in [batch] + rest;
    InsertedStayAbove(db, cursor, next, batch);
    MatchingIs(db, Some(next));
    MatchingIs(db, cursor);
    ListingIsDescending(db, Some(next));
  }

  /** With unique rows staying unique, a finished browse returns every row there was, once each, newest first. */
  lemma {:induction false} BrowseReturnsEverything(db: seq<Row>, cursor: Option<Row>, limit: nat, inserted: seq<seq<Row>>)
    requires limit >= 1 && UniqueThroughout(db, inserted) && NewerThanAll(inserted, db, cursor)
    ensures Browse(db, cursor, limit, inserted).1 ==> Browse(db, cursor, limit, inserted).0 == Listing(db, cursor)
    ensures |inserted| >= |Matching(db, cursor)| ==> Browse(db, cursor, limit, inserted).1
    decreases |inserted|
  {
    hide Sort, Matching, NewerThanAll, Listing;
    var l := Listing(db, cursor);
    ListingIsDescending(db, cursor);
    if |l| <= limit {
      assert l[..|l|] == l;
    } else {
      assert |l[..limit + 1]| == limit + 1;
      if inserted != [] {
        assert [inserted[0]] + inserted[1..] == inserted;
        NextPage(db, cursor, limit, inserted[0], inserted[1..]);
        BrowseReturnsEverything(db + inserted[0], Some(l[limit - 1]), limit, inserted[1..]);
        assert l == l[..limit] + l[limit..];
      }
    }
  }

  predicate UniqueThroughout(db: seq<Row>, inserted: seq<seq<Row>>)
    decreases |inserted|
  {
    Unique(db) && (inserted != [] ==> UniqueThroughout(db + inserted[0], inserted[1..]))
  }

  /** From the first page on: every row present at the start, exactly once, latest first and by descending id within a time. */
  lemma BrowsingIsComplete(db: seq<Row>, limit: nat, inserted: seq<seq<Row>>)
    requires limit >= 1 && UniqueThroughout(db, inserted) && NewerThanAll(inserted, db, None)
    requires Browse(db, None, limit, inserted).1
    ensures var rows := Browse(db, None, limit, inserted).0;
            && multiset(rows) == multiset(db)
            && forall i, j :: 0 <= i < j < |rows| ==>
                 rows[i].at > rows[j].at || (rows[i].at == rows[j].at && rows[i].id > rows[j].id)
  {
    hide Sort, Matching, NewerThanAll, Listing, Browse;
    BrowseReturnsEverything(db, None, limit, inserted);
    ListingIsDescending(db, None);
    AllMatch(db, None);
  }
}
