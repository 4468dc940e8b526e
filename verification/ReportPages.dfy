/** The page report: keyset pages over a fixed table, the cursor between them, and the walks that follow it. */
module ReportPages {
  import opened Common

  /** A row of the report: its URL, its identifier (0 is the nil identifier), and the rest of it. */
  datatype Row = Row(url: string, id: Id, data: string)

  /** The position after which the next page starts, and the filters it belongs to (their digest is injective). */
  datatype Cursor = Cursor(url: string, id: Id, filters: string)

  datatype Batch = Batch(items: seq<Row>, next: Option<Cursor>)

  datatype Reply = Page(batch: Batch) | InvalidCursor

  const PAGE_SIZE := 500

  predicate StringBefore(a: string, b: string) {
    b != "" && (a == "" || a[0] < b[0] || (a[0] == b[0] && StringBefore(a[1..], b[1..])))
  }

  /** ORDER BY normalized_url, page_id. */
  predicate After(row: Row, url: string, id: Id) {
    StringBefore(url, row.url) || (url == row.url && id < row.id)
  }

  /** The table in report order; URL and identifier are unique. */
  ghost predicate InOrder(table: seq<Row>) {
    forall i, j :: 0 <= i < j < |table| ==> After(table[j], table[i].url, table[i].id)
  }

  lemma {:induction false} StringOrder(a: string, b: string)
    ensures !StringBefore(a, a)
    ensures StringBefore(a, b) ==> !StringBefore(b, a)
  {
    if a != "" {
      StringOrder(a[1..], if b == "" then "" else b[1..]);
    }
  }

  /** The rows a query selects: those the filters match, after the cursor if there is one. */
  function Selected(table: seq<Row>, matches: (string, Row) -> bool, filters: string, cursor: Option<Cursor>): seq<Row> {
    if table == [] then []
    else
      var last := table[|table| - 1];
      var before := Selected(table[..|table| - 1], matches, filters, cursor);
      if Wanted(last, matches, filters, cursor) then before + [last] else before
  }

  predicate Wanted(row: Row, matches: (string, Row) -> bool, filters: string, cursor: Option<Cursor>) {
    matches(filters, row) && (cursor.Some? ==> After(row, cursor.value.url, cursor.value.id))
  }

  function Take(s: seq<Row>, n: nat): seq<Row> {
    if |s| <= n then s else s[..n]
  }

  /** ListPages: one row more than the page holds is asked for, and only tells whether there are more. */
  method ListPages(table: seq<Row>, matches: (string, Row) -> bool, filters: string, limit: nat, cursor: Option<Cursor>)
    returns (pages: seq<Row>, hasMore: bool)
    ensures var all := Selected(table, matches, filters, cursor);
      pages == Take(all, limit) && (hasMore <==> |all| > limit)
  {
    pages := [];
    for n := 0 to |table|
      invariant pages == Take(Selected(table[..n], matches, filters, cursor), limit + 1)
    {
      assert table[..n + 1][..n] == table[..n];
      if |pages| <= limit && Wanted(table[n], matches, filters, cursor) {
        pages := pages + [table[n]];
      }
    }
    assert table[..|table|] == table;
    hasMore := |pages| > limit;
    if hasMore {
      pages := pages[..limit];
    }
  }

  /** The report request: a cursor of other filters, or one that cannot have been issued, is refused. */
  method ReadPage(table: seq<Row>, matches: (string, Row) -> bool, filters: string, limit: nat, cursor: Option<Cursor>) returns (reply: Reply)
    ensures reply.InvalidCursor? <==>
      cursor.Some? && (cursor.value.url == "" || cursor.value.id == 0 || cursor.value.filters != filters)
    ensures reply.Page? ==>
      var all := Selected(table, matches, filters, cursor);
      && reply.batch.items == Take(all, limit)
      && (reply.batch.next.Some? <==> |all| > limit && limit > 0)
      && (reply.batch.next.Some? ==> reply.batch.next.value == Cursor(all[limit - 1].url, all[limit - 1].id, filters))
  {
    if cursor.Some? && (cursor.value.url == "" || cursor.value.id == 0 || cursor.value.filters != filters) {
      return InvalidCursor;
    }
    var pages, hasMore := ListPages(table, matches, filters, limit, cursor);
    var next := None;
    if hasMore && |pages| > 0 {
      var last := pages[|pages| - 1];
      next := Some(Cursor(last.url, last.id, filters));
    }
    reply := Page(Batch(pages, next));
  }

  // ------------------------------------------------------------------- walks

  /** All rows the filters match, in report order: what a walk should see. */
  function Report(table: seq<Row>, matches: (string, Row) -> bool, filters: string): seq<Row> {
    Selected(table, matches, filters, None)
  }

  lemma {:induction false} ReportMembers(table: seq<Row>, matches: (string, Row) -> bool, filters: string, cursor: Option<Cursor>)
    ensures forall r :: r in Selected(table, matches, filters, cursor) <==> r in table && Wanted(r, matches, filters, cursor)
  {
    if table != [] {
      var init, last := table[..|table| - 1], table[|table| - 1];
      ReportMembers(init, matches, filters, cursor);
      assert forall r :: r in table <==> r in init || r == last;
    }
  }

  lemma {:induction false} ReportInOrder(table: seq<Row>, matches: (string, Row) -> bool, filters: string)
    requires InOrder(table)
    ensures InOrder(Report(table, matches, filters))
  {
    if table != [] {
      var init, last := table[..|table| - 1], table[|table| - 1];
      ReportInOrder(init, matches, filters);
      ReportMembers(init, matches, filters, None);
      var report := Report(init, matches, filters);
      forall i | 0 <= i < |report| ensures After(last, report[i].url, report[i].id) {
        assert report[i] in init;
        var k :| 0 <= k < |init| && init[k] == report[i];
        assert table[k] == report[i];
      }
    }
  }

  /** Selecting after a cursor is filtering the report. */
  lemma {:induction false} SelectedFromReport(table: seq<Row>, matches: (string, Row) -> bool, filters: string, c: Cursor)
    ensures Selected(table, matches, filters, Some(c)) == Later(Report(table, matches, filters), c)
  {
    if table != [] {
      var init, last := table[..|table| - 1], table[|table| - 1];
      SelectedFromReport(init, matches, filters, c);
      LaterLast(Report(init, matches, filters), last, c);
    }
  }

  function Later(rows: seq<Row>, c: Cursor): seq<Row> {
    if rows == [] then []
    else
      var last := rows[|rows| - 1];
      Later(rows[..|rows| - 1], c) + (if After(last, c.url, c.id) then [last] else [])
  }

  lemma LaterLast(rows: seq<Row>, row: Row, c: Cursor)
    ensures Later(rows + [row], c) == Later(rows, c) + (if After(row, c.url, c.id) then [row] else [])
  {
    assert (rows + [row])[..|rows|] == rows;
  }

  /** In report order, the rows after the cursor of row `i` are those behind it. */
  lemma {:induction false} LaterIsSuffix(rows: seq<Row>, i: nat, c: Cursor)
    requires InOrder(rows) && i < |rows| && c.url == rows[i].url && c.id == rows[i].id
    ensures Later(rows, c) == rows[i + 1..]
  {
    var n := |rows| - 1;
    if i < n {
      LaterIsSuffix(rows[..n], i, c);
      assert rows[..n][i + 1..] + [rows[n]] == rows[i + 1..];
    } else {
      assert !After(rows[n], c.url, c.id) by { StringOrder(c.url, c.url); }
      assert rows[i + 1..] == [];
      LaterNone(rows[..n], rows[n], c);
    }
  }

  lemma {:induction false} LaterNone(rows: seq<Row>, last: Row, c: Cursor)
    requires c.url == last.url && c.id == last.id
    requires forall k :: 0 <= k < |rows| ==> After(last, rows[k].url, rows[k].id)
    ensures Later(rows, c) == []
  {
    if rows != [] {
      var row := rows[|rows| - 1];
      LaterNone(rows[..|rows| - 1], last, c);
      StringOrder(c.url, row.url);
      StringOrder(row.url, row.url);
    }
  }

  /** The next page of a walk starts right behind the last one. */
  lemma NextPage(table: seq<Row>, matches: (string, Row) -> bool, filters: string, i: nat)
    requires InOrder(table) && i < |Report(table, matches, filters)|
    ensures var report := Report(table, matches, filters);
      Selected(table, matches, filters, Some(Cursor(report[i].url, report[i].id, filters))) == report[i + 1..]
  {
    var report := Report(table, matches, filters);
    var c := Cursor(report[i].url, report[i].id, filters);
    ReportInOrder(table, matches, filters);
    SelectedFromReport(table, matches, filters, c);
    LaterIsSuffix(report, i, c);
  }

  /** After `k` full pages there is more to come, but the cursor made of the last row read is refused. */
  ghost predicate Breaks(report: seq<Row>, limit: nat, k: nat) {
    0 < limit * k < |report| && (report[limit * k - 1].url == "" || report[limit * k - 1].id == 0)
  }

  /** Where a walk stands after `k` full pages: at the start, or behind the last row read with more to come. */
  ghost predicate StandsAt(report: seq<Row>, filters: string, limit: nat, k: nat, cursor: Option<Cursor>) {
    var done := limit * k;
    && done <= |report|
    && (cursor.None? ==> done == 0)
    && (cursor.Some? ==> 0 < done < |report| && cursor.value == Cursor(report[done - 1].url, report[done - 1].id, filters))
  }

  lemma SelectedAt(table: seq<Row>, matches: (string, Row) -> bool, filters: string, limit: nat, k: nat, cursor: Option<Cursor>)
    requires InOrder(table) && StandsAt(Report(table, matches, filters), filters, limit, k, cursor)
    ensures Selected(table, matches, filters, cursor) == Report(table, matches, filters)[limit * k..]
  {
    if cursor.Some? {
      NextPage(table, matches, filters, limit * k - 1);
    }
  }

  lemma PageStarts(limit: nat, k: nat, j: nat)
    ensures limit * (k + 1) == limit * k + limit
    ensures j > k ==> limit * j >= limit * k + limit
  {
    if j > k {
      assert limit * j == limit * k + limit * (j - k);
    }
  }

  /** On the last page no walk breaks any more. */
  lemma NoBreakBehind(report: seq<Row>, limit: nat, k: nat)
    requires limit * k + limit >= |report|
    ensures forall j: nat :: Breaks(report, limit, j) ==> j <= k
  {
    forall j: nat | Breaks(report, limit, j) ensures j <= k {
      PageStarts(limit, k, j);
    }
  }

  /** The read of page `k`: refused exactly when the walk breaks there. */
  method ReadAt(table: seq<Row>, matches: (string, Row) -> bool, filters: string, limit: nat, cursor: Option<Cursor>, ghost k: nat)
    returns (reply: Reply)
    requires limit > 0 && InOrder(table) && StandsAt(Report(table, matches, filters), filters, limit, k, cursor)
    ensures var report := Report(table, matches, filters);
      && (reply.InvalidCursor? <==> Breaks(report, limit, k))
      && (reply.Page? ==>
            && reply.batch.items == Take(report[limit * k..], limit)
            && (reply.batch.next.Some? <==> limit * k + limit < |report|)
            && (reply.batch.next.Some? ==> StandsAt(report, filters, limit, k + 1, reply.batch.next)))
  {
    SelectedAt(table, matches, filters, limit, k, cursor);
    PageStarts(limit, k, k);
    hide Selected, InOrder;
    reply := ReadPage(table, matches, filters, limit, cursor);
  }

  /**
   * Following the cursor from the empty one gives every matching row once, in
   * order, for any page size. It fails exactly when a page that is not the last
   * ends with a row whose cursor is refused.
   */
  method Walk(table: seq<Row>, matches: (string, Row) -> bool, filters: string, limit: nat) returns (rows: Option<seq<Row>>)
    requires InOrder(table) && limit > 0
    ensures rows.Some? ==> rows.value == Report(table, matches, filters)
    ensures rows.None? <==> exists k: nat :: Breaks(Report(table, matches, filters), limit, k)
  {
    hide Selected, InOrder, Breaks, StandsAt;
    var seen := [];
    var cursor: Option<Cursor> := None;
    var more := true;
    ghost var report, k := Report(table, matches, filters), 0;
    Start(report, filters, limit);
    while more
      invariant |seen| <= |report| && seen == report[..|seen|]
      invariant more ==> |seen| == limit * k && StandsAt(report, filters, limit, k, cursor)
      invariant forall j: nat :: Breaks(report, limit, j) ==> more && j >= k
      invariant !more ==> seen == report
      decreases |report| - |seen|, more
    {
      var reply := ReadAt(table, matches, filters, limit, cursor, k);
      if reply.InvalidCursor? {
        return None;
      }
      PageStarts(limit, k, k);
      TakeNext(report, limit * k, limit);
      seen := seen + reply.batch.items;
      cursor := reply.batch.next;
      more := cursor.Some?;
      if !more {
        NoBreakBehind(report, limit, k);
      }
      k := k + 1;
    }
    rows := Some(seen);
  }

  lemma Start(report: seq<Row>, filters: string, limit: nat)
    ensures StandsAt(report, filters, limit, 0, None) && !Breaks(report, limit, 0)
  {}

  /**
   * Walks over a report succeed for every page size if and only if each of its
   * rows, but for the last, has a URL and an identifier.
   */
  lemma BreaksSomewhere(report: seq<Row>)
    ensures (exists limit: nat, k: nat :: Breaks(report, limit, k))
      <==> exists i :: 0 <= i < |report| - 1 && (report[i].url == "" || report[i].id == 0)
  {
    if limit: nat, k: nat :| Breaks(report, limit, k) {
      var i := limit * k - 1;
      assert 0 <= i < |report| - 1 && (report[i].url == "" || report[i].id == 0);
    }
    if i :| 0 <= i < |report| - 1 && (report[i].url == "" || report[i].id == 0) {
      assert (i + 1) * 1 == i + 1;
      assert Breaks(report, i + 1, 1);
    }
  }

  /** Rows without a URL: their cursors are all refused. */
  function Unaddressed(n: nat): seq<Row> {
    seq(n, i requires 0 <= i < n => Row("", i, ""))
  }

  /** Such a table breaks every walk that needs a second page, and every ingestion that needs a second page. */
  lemma UnaddressedBreaks(matches: (string, Row) -> bool, filters: string, n: nat, limit: nat)
    requires (forall row :: matches(filters, row)) && 0 < limit < n
    ensures InOrder(Unaddressed(n)) && Breaks(Report(Unaddressed(n), matches, filters), limit, 1)
  {
    AllMatch(matches, filters, n);
    assert limit * 1 == limit;
  }

  lemma {:induction false} AllMatch(matches: (string, Row) -> bool, filters: string, n: nat)
    requires forall row :: matches(filters, row)
    ensures Report(Unaddressed(n), matches, filters) == Unaddressed(n)
  {
    if n > 0 {
      assert Unaddressed(n)[..n - 1] == Unaddressed(n - 1);
      AllMatch(matches, filters, n - 1);
    }
  }

  lemma TakeNext(report: seq<Row>, done: nat, limit: nat)
    requires done <= |report|
    ensures report[..done] + Take(report[done..], limit) == Take(report, done + limit)
  {}

  /**
   * The ingestion loop: pages of five hundred are read until the last one or
   * until a row more than `maxPages` shows up. A refused cursor ends it.
   */
  method Ingest(table: seq<Row>, matches: (string, Row) -> bool, filters: string, maxPages: nat)
    returns (discovered: Option<seq<Row>>, reachedLimit: bool)
    requires InOrder(table)
    ensures discovered.Some? ==> discovered.value == Take(Report(table, matches, filters), maxPages)
    ensures discovered.Some? ==> (reachedLimit <==> |Report(table, matches, filters)| > maxPages)
    ensures discovered.None? <==>
      exists k: nat :: PAGE_SIZE * k <= maxPages && Breaks(Report(table, matches, filters), PAGE_SIZE, k)
  {
    hide Selected, InOrder, Breaks, StandsAt;
    var rows := [];
    reachedLimit := false;
    var cursor: Option<Cursor> := None;
    var more := true;
    ghost var report, k := Report(table, matches, filters), 0;
    Start(report, filters, PAGE_SIZE);
    while more && !reachedLimit
      invariant |rows| <= maxPages && |rows| <= |report| && rows == report[..|rows|]
      invariant !reachedLimit && more ==> |rows| == PAGE_SIZE * k && StandsAt(report, filters, PAGE_SIZE, k, cursor)
      invariant forall j: nat :: Breaks(report, PAGE_SIZE, j) && PAGE_SIZE * j <= maxPages ==> more && !reachedLimit && j >= k
      invariant !reachedLimit && !more ==> rows == report
      invariant reachedLimit ==> |rows| == maxPages < |report|
      decreases |report| - |rows|, more && !reachedLimit
    {
      var reply := ReadAt(table, matches, filters, PAGE_SIZE, cursor, k);
      if reply.InvalidCursor? {
        return None, false;
      }
      TakeNext(report, PAGE_SIZE * k, PAGE_SIZE);
      rows, reachedLimit := Collect(rows, reply.batch.items, maxPages);
      cursor := reply.batch.next;
      more := cursor.Some?;
      if !more {
        NoBreakBehind(report, PAGE_SIZE, k);
      }
      k := k + 1;
    }
    discovered := Some(rows);
  }

  /** The inner loop over one page: rows are kept up to `maxPages`, and one more is noticed. */
  method Collect(rows: seq<Row>, items: seq<Row>, maxPages: nat) returns (kept: seq<Row>, reachedLimit: bool)
    requires |rows| <= maxPages
    ensures kept == Take(rows + items, maxPages)
    ensures reachedLimit <==> |rows| + |items| > maxPages
  {
    kept, reachedLimit := rows, false;
    for k := 0 to |items|
      invariant kept == rows + items[..k] && |kept| <= maxPages && !reachedLimit
    {
      if |kept| >= maxPages {
        reachedLimit := true;
        break;
      }
      kept := kept + [items[k]];
    }
  }
}
