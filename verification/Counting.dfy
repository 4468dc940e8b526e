/** How the per-status page counts move when rows change. */
module Counting {
  import opened Common
  import opened Frontier

  ghost function Count(pages: map<Id, Page>, status: PageStatus): nat {
    |WithStatus(pages, status)|
  }

  ghost function One(holds: bool): int {
    if holds then 1 else 0
  }

  lemma ReplaceOne(before: set<Id>, after: set<Id>, p: Id)
    requires after - {p} == before - {p}
    ensures |after| == |before| + One(p in after) - One(p in before)
  {
    assert after == if p in after then (after - {p}) + {p} else after - {p};
    assert before == if p in before then (before - {p}) + {p} else before - {p};
  }

  /** Updating or inserting one row moves one unit of count. */
  lemma MoveOne(pages: map<Id, Page>, p: Id, page: Page, status: PageStatus)
    ensures Count(pages[p := page], status)
         == Count(pages, status) + One(page.status == status) - One(p in pages && pages[p].status == status)
  {
    ReplaceOne(WithStatus(pages, status), WithStatus(pages[p := page], status), p);
  }

  /** Inserted pages all arrive queued. */
  lemma {:induction false} InsertCounts(pages: map<Id, Page>, parent: Id, page: Page, urls: seq<string>, ids: seq<Id>, now: int, status: PageStatus)
    requires |urls| <= |ids| && FreshIds(pages, ids)
    ensures var r := InsertPages(pages, parent, page, urls, ids, now);
      && |r| == |pages| + |urls|
      && Count(r, status) == Count(pages, status) + (if status == PageQueued then |urls| else 0)
  {
    if urls != [] {
      var last := |urls| - 1;
      InsertCounts(pages, parent, page, urls[..last], ids, now, status);
      var before := InsertPages(pages, parent, page, urls[..last], ids, now);
      assert ids[last] !in before;
      var inserted := DiscoveredPage(parent, page, urls[last], now);
      assert before[ids[last] := inserted].Keys == before.Keys + {ids[last]};
      MoveOne(before, ids[last], inserted, status);
    }
  }

  /** Insertion leaves the old rows alone and adds one row per URL. */
  lemma {:induction false} InsertedRows(pages: map<Id, Page>, parent: Id, page: Page, urls: seq<string>, ids: seq<Id>, now: int)
    requires |urls| <= |ids| && FreshIds(pages, ids)
    ensures var r := InsertPages(pages, parent, page, urls, ids, now);
      && (forall p :: p in pages ==> r[p] == pages[p])
      && (forall i :: 0 <= i < |urls| ==> ids[i] in r && r[ids[i]] == DiscoveredPage(parent, page, urls[i], now))
  {
    if urls != [] {
      InsertedRows(pages, parent, page, urls[..|urls| - 1], ids, now);
    }
  }

  ghost function AllCounts(pages: map<Id, Page>): nat {
    Count(pages, PageQueued) + Count(pages, PageLeased) + Count(pages, PagePersisting) + Count(pages, PageSucceeded)
    + Count(pages, PageFailed) + Count(pages, PageSkipped) + Count(pages, PageCancelled)
  }

  lemma AllCountsStep(pages: map<Id, Page>, p: Id, page: Page)
    requires p !in pages
    ensures AllCounts(pages[p := page]) == AllCounts(pages) + 1
  {
    MoveOne(pages, p, page, PageQueued);
    MoveOne(pages, p, page, PageLeased);
    MoveOne(pages, p, page, PagePersisting);
    MoveOne(pages, p, page, PageSucceeded);
    MoveOne(pages, p, page, PageFailed);
    MoveOne(pages, p, page, PageSkipped);
    MoveOne(pages, p, page, PageCancelled);
  }

  /** Every row carries exactly one status. */
  lemma {:induction false} CountsPartition(pages: map<Id, Page>)
    ensures |pages| == AllCounts(pages)
    decreases |pages|
  {
    if pages == map[] {
      assert forall status :: WithStatus(pages, status) == {};
    } else {
      var p :| p in pages;
      var rest := pages - {p};
      assert pages.Keys == rest.Keys + {p};
      CountsPartition(rest);
      hide AllCounts;
      AllCountsStep(rest, p, pages[p]);
      assert rest[p := pages[p]] == pages;
    }
  }

  lemma DisjointUnion(a: set<Id>, b: set<Id>)
    requires a !! b
    ensures |a + b| == |a| + |b|
  {}

  /** A bulk update moves the rows of `moved` to `target` and leaves the others alone. */
  ghost predicate Moves(pages: map<Id, Page>, after: map<Id, Page>, moved: set<Id>, target: PageStatus) {
    && pages.Keys == after.Keys && moved <= pages.Keys
    && forall p :: p in pages ==>
         if p in moved then pages[p].status != target && after[p].status == target
         else after[p].status == pages[p].status
  }

  lemma BulkArrivals(pages: map<Id, Page>, after: map<Id, Page>, moved: set<Id>, target: PageStatus)
    requires Moves(pages, after, moved, target)
    ensures Count(after, target) == Count(pages, target) + |moved|
  {
    var x, y := WithStatus(pages, target), WithStatus(after, target);
    DisjointUnion(x, moved);
    assert y == x + moved;
  }

  lemma BulkDepartures(pages: map<Id, Page>, after: map<Id, Page>, moved: set<Id>, target: PageStatus, status: PageStatus)
    requires Moves(pages, after, moved, target) && status != target
    ensures Count(after, status) == Count(pages, status) - |moved * WithStatus(pages, status)|
  {
    var x, y := WithStatus(pages, status), WithStatus(after, status);
    DisjointUnion(y, moved * x);
    assert x == y + moved * x;
  }

  /** All of `moved` go from one status to another. */
  ghost predicate MovesBetween(pages: map<Id, Page>, after: map<Id, Page>, moved: set<Id>, from: PageStatus, to: PageStatus) {
    && from != to && pages.Keys == after.Keys && moved <= pages.Keys
    && forall p :: p in pages ==>
         if p in moved then pages[p].status == from && after[p].status == to
         else after[p].status == pages[p].status
  }

  lemma BulkMove(pages: map<Id, Page>, after: map<Id, Page>, moved: set<Id>, from: PageStatus, to: PageStatus, status: PageStatus)
    requires MovesBetween(pages, after, moved, from, to)
    ensures Count(after, status)
         == Count(pages, status) + (if status == to then |moved| else 0) - (if status == from then |moved| else 0)
  {
    assert Moves(pages, after, moved, to);
    if status == to {
      BulkArrivals(pages, after, moved, to);
    } else {
      BulkDepartures(pages, after, moved, to, status);
      assert moved * WithStatus(pages, status) == if status == from then moved else {};
    }
  }
}
