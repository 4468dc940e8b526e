/** What every reachable execution satisfies, and that every transaction keeps it. */
module FrontierInvariant {
  import opened Common
  import opened Frontier
  import opened Counting

  function DeliveredBatches(batches: map<Id, Batch>): set<Id> {
    set p | p in batches && batches[p].status == Delivered
  }

  /** The counters are a cache of the rows. */
  ghost predicate CountersMatch(x: Execution) {
    var c := x.counts;
    && c.discovered == |x.pages| <= x.maxPages
    && c.queued == Count(x.pages, PageQueued)
    && c.leased == Count(x.pages, PageLeased) <= x.maxConcurrency
    && c.persisting == Count(x.pages, PagePersisting)
    && c.succeeded == Count(x.pages, PageSucceeded)
    && c.failed == Count(x.pages, PageFailed)
    && c.skipped == Count(x.pages, PageSkipped)
    && c.cancelled == Count(x.pages, PageCancelled)
    && c.expected == |x.batches|
    && c.published == |DeliveredBatches(x.batches)|
  }

  /** A result that is accepted for good on this attempt. */
  predicate Settles(result: PageResult, attempts: nat) {
    !ShouldRetryPage(result, attempts) && result.encoded <= MAX_PAYLOAD
  }

  ghost predicate PageOk(page: Page, host: string) {
    && page.host == host
    && (page.lease.Some? <==> page.status == PageLeased)
    && page.attempts <= MAX_ATTEMPTS
    && (page.status == PageQueued ==> page.attempts < MAX_ATTEMPTS)
    && (page.status == PageLeased ==> page.attempts > 0)
    && (page.status == PageQueued || page.status == PageLeased || page.status == PageCancelled ==> page.accepted.None?)
    && (page.status == PagePersisting || page.status == PageSucceeded || page.status == PageSkipped ==> page.accepted.Some?)
    && (page.status == PagePersisting ==> page.pending == Some(TerminalOutcome(page.accepted.value)))
    && (page.accepted.Some? ==> page.status == PagePersisting || page.status == TerminalOutcome(page.accepted.value))
    && (page.accepted.Some? ==> Settles(page.accepted.value, page.attempts))
  }

  ghost predicate PageRowsOk(pages: map<Id, Page>, host: string) {
    forall p :: p in pages ==> PageOk(pages[p], host)
  }

  ghost predicate BatchRowsOk(pages: map<Id, Page>, batches: map<Id, Batch>) {
    && (forall p :: p in batches <==> p in pages && pages[p].accepted.Some?)
    && (forall p :: p in batches ==> (batches[p].status == Delivered <==> pages[p].status != PagePersisting))
    && (forall p :: p in batches ==> (batches[p].lease.Some? <==> batches[p].status == Claimed))
  }

  ghost predicate PagesOk(x: Execution) {
    PageRowsOk(x.pages, x.host) && BatchRowsOk(x.pages, x.batches)
  }

  /** Terminal exactly when drained, and the terminal status says what happened to the pages. */
  ghost predicate StatusOk(x: Execution) {
    && x.status != Indexing
    && (Terminal(x.status) <==> Quiescent(x))
    && (x.status == CancelRequested || x.status == Cancelled ==> x.counts.queued == 0 && x.counts.leased == 0)
    && (Terminal(x.status) && x.status != Cancelled ==>
          x.status == PublicStatus(x.status, x.counts.succeeded, x.counts.failed + x.counts.skipped + x.counts.cancelled))
    && (x.status == Queued ==> x.counts.leased == 0 && x.counts.persisting == 0)
  }

  ghost predicate TreeOk(rules: UrlRules, x: Execution) {
    && x.seed in x.pages
    && x.pages[x.seed].url == x.seedUrl && x.pages[x.seed].depth == 0 && x.pages[x.seed].parent == None
    && UniqueUrls(x.pages)
    && (forall p {:trigger Discovered(rules, x, p)} :: p in x.pages && p != x.seed ==> Discovered(rules, x, p))
    && (forall p {:trigger Followed(rules, x, p)} :: p in x.pages ==> Followed(rules, x, p))
  }

  ghost predicate SameUrl(pages: map<Id, Page>, p: Id, q: Id) {
    p in pages && q in pages && pages[p].url == pages[q].url
  }

  ghost predicate UniqueUrls(pages: map<Id, Page>) {
    forall p, q {:trigger SameUrl(pages, p, q)} :: SameUrl(pages, p, q) ==> p == q
  }

  /** A page other than the seed was reported by the accepted result of its parent, one level up. */
  ghost predicate Discovered(rules: UrlRules, x: Execution, p: Id)
    requires p in x.pages
  {
    var page := x.pages[p];
    && page.parent.Some?
    && page.parent.value in x.pages
    && var parent := x.pages[page.parent.value];
       && page.depth == parent.depth + 1 <= x.maxDepth
       && parent.accepted.Some?
       && LeadsTo(rules, x.host, parent.accepted.value.links, page.url)
  }

  /** Below the depth limit, and until the page budget is spent, every reported target is in the frontier. */
  ghost predicate Followed(rules: UrlRules, x: Execution, p: Id)
    requires p in x.pages
  {
    var page := x.pages[p];
    page.accepted.Some? && page.depth < x.maxDepth && x.counts.discovered < x.maxPages ==>
      forall u :: LeadsTo(rules, x.host, page.accepted.value.links, u) ==> u in Urls(x.pages)
  }

  ghost predicate FrontierOk(rules: UrlRules, x: Execution) {
    CountersMatch(x) && PagesOk(x) && StatusOk(x) && TreeOk(rules, x)
  }

  // ------------------------------------------------------------------ helpers

  /** Every accepted result has one analytics row, open exactly while the page is PERSISTING. */
  lemma AnalyticsConservation(x: Execution)
    requires CountersMatch(x) && PagesOk(x)
    ensures x.counts.expected == x.counts.published + x.counts.persisting
  {
    hide PagesOk;
    assert PageRowsOk(x.pages, x.host) && BatchRowsOk(x.pages, x.batches) by { PagesParts(x); }
    BatchesSplit(x.pages, x.host, x.batches);
    DisjointUnion(DeliveredBatches(x.batches), WithStatus(x.pages, PagePersisting));
    hide PageRowsOk, BatchRowsOk, DeliveredBatches, WithStatus;
    assert |x.batches| == |x.batches.Keys|;
  }

  lemma PagesParts(x: Execution)
    requires PagesOk(x)
    ensures PageRowsOk(x.pages, x.host) && BatchRowsOk(x.pages, x.batches)
  {}

  /** An analytics row is delivered, or its page is PERSISTING. */
  lemma BatchesSplit(pages: map<Id, Page>, host: string, batches: map<Id, Batch>)
    requires PageRowsOk(pages, host) && BatchRowsOk(pages, batches)
    ensures DeliveredBatches(batches) !! WithStatus(pages, PagePersisting)
    ensures batches.Keys == DeliveredBatches(batches) + WithStatus(pages, PagePersisting)
  {
    assert forall p :: p in pages && pages[p].status == PagePersisting ==> PageOk(pages[p], host);
  }

  lemma CountersSum(x: Execution)
    requires CountersMatch(x)
    ensures var c := x.counts;
      c.queued + c.leased + c.persisting + c.succeeded + c.failed + c.skipped + c.cancelled == c.discovered
  {
    CountsPartition(x.pages);
  }

  /** The same rows, with the same URLs, places in the tree and accepted results. */
  ghost predicate SamePlaces(a: map<Id, Page>, b: map<Id, Page>) {
    && b.Keys == a.Keys
    && forall p :: p in a ==>
         b[p].url == a[p].url && b[p].depth == a[p].depth && b[p].parent == a[p].parent && b[p].accepted == a[p].accepted
  }

  /** Rows that keep URL, place in the tree and accepted result keep the tree. */
  lemma TreeFrame(rules: UrlRules, x: Execution, y: Execution)
    requires TreeOk(rules, x)
    requires y.seed == x.seed && y.seedUrl == x.seedUrl && y.host == x.host && y.maxPages == x.maxPages && y.maxDepth == x.maxDepth
    requires SamePlaces(x.pages, y.pages) && y.counts.discovered == x.counts.discovered
    ensures TreeOk(rules, y)
  {
    assert Urls(y.pages) == Urls(x.pages);
    forall p, q | SameUrl(y.pages, p, q) ensures p == q {
      assert SameUrl(x.pages, p, q);
    }
    forall p | p in y.pages && p != y.seed ensures Discovered(rules, y, p) {
      assert Discovered(rules, x, p);
    }
    forall p | p in y.pages ensures Followed(rules, y, p) {
      assert Followed(rules, x, p);
    }
  }

  /** A page with the status exists when its count is positive. */
  lemma CountWitness(pages: map<Id, Page>, p: Id)
    requires p in pages
    ensures Count(pages, pages[p].status) > 0
  {
    assert p in WithStatus(pages, pages[p].status);
  }

  ghost function Shift(status: PageStatus, from: PageStatus, to: PageStatus, n: int): int {
    (if status == to then n else 0) - (if status == from then n else 0)
  }

  /** The counter changes of `n` rows that go from one status to another. */
  ghost predicate Moved(c: Counts, d: Counts, from: PageStatus, to: PageStatus, n: int) {
    && d.discovered == c.discovered
    && d.queued == c.queued + Shift(PageQueued, from, to, n)
    && d.leased == c.leased + Shift(PageLeased, from, to, n)
    && d.persisting == c.persisting + Shift(PagePersisting, from, to, n)
    && d.succeeded == c.succeeded + Shift(PageSucceeded, from, to, n)
    && d.failed == c.failed + Shift(PageFailed, from, to, n)
    && d.skipped == c.skipped + Shift(PageSkipped, from, to, n)
    && d.cancelled == c.cancelled + Shift(PageCancelled, from, to, n)
  }

  /** The parts of an execution that no transaction writes. */
  ghost predicate SameCommand(x: Execution, y: Execution) {
    && y.host == x.host && y.seed == x.seed && y.seedUrl == x.seedUrl
    && y.maxPages == x.maxPages && y.maxDepth == x.maxDepth && y.maxConcurrency == x.maxConcurrency
    && y.deadline == x.deadline
  }

  lemma ReplaceCounters(x: Execution, y: Execution, p: Id)
    requires CountersMatch(x) && SameCommand(x, y)
    requires p in x.pages && p in y.pages && y.pages == x.pages[p := y.pages[p]]
    requires Moved(x.counts, y.counts, x.pages[p].status, y.pages[p].status, 1)
    requires y.counts.leased <= y.maxConcurrency
    requires y.counts.expected == |y.batches| && y.counts.published == |DeliveredBatches(y.batches)|
    ensures CountersMatch(y)
  {
    assert y.pages.Keys == x.pages.Keys;
    MoveOne(x.pages, p, y.pages[p], PageQueued);
    MoveOne(x.pages, p, y.pages[p], PageLeased);
    MoveOne(x.pages, p, y.pages[p], PagePersisting);
    MoveOne(x.pages, p, y.pages[p], PageSucceeded);
    MoveOne(x.pages, p, y.pages[p], PageFailed);
    MoveOne(x.pages, p, y.pages[p], PageSkipped);
    MoveOne(x.pages, p, y.pages[p], PageCancelled);
  }

  lemma ReplacePlace(pages: map<Id, Page>, p: Id, page: Page)
    requires p in pages
    requires page.url == pages[p].url && page.depth == pages[p].depth && page.parent == pages[p].parent
    requires page.accepted == pages[p].accepted
    ensures SamePlaces(pages, pages[p := page])
  {}

  lemma ReplaceRow(x: Execution, y: Execution, p: Id)
    requires PagesOk(x) && y.host == x.host && y.batches == x.batches
    requires p in x.pages && p in y.pages && y.pages == x.pages[p := y.pages[p]]
    requires x.pages[p].accepted == y.pages[p].accepted == None && PageOk(y.pages[p], y.host)
    ensures PagesOk(y)
  {}

  /** A row that changes status without touching its result keeps the frontier. */
  lemma ReplacePage(rules: UrlRules, x: Execution, y: Execution, p: Id)
    requires FrontierOk(rules, x) && SameCommand(x, y)
    requires p in x.pages && p in y.pages && y.pages == x.pages[p := y.pages[p]]
    requires var a, b := x.pages[p], y.pages[p];
      && b.url == a.url && b.depth == a.depth && b.parent == a.parent && b.accepted == a.accepted == None
      && PageOk(b, y.host)
    requires Moved(x.counts, y.counts, x.pages[p].status, y.pages[p].status, 1)
    requires y.counts.leased <= y.maxConcurrency
    requires y.batches == x.batches && y.counts.expected == x.counts.expected && y.counts.published == x.counts.published
    requires StatusOk(y)
    ensures FrontierOk(rules, y)
  {
    ReplaceCounters(x, y, p);
    ReplaceRow(x, y, p);
    ReplacePlace(x.pages, p, y.pages[p]);
    TreeFrame(rules, x, y);
  }

  // -------------------------------------------------------------- transitions

  lemma ClaimParts(rules: UrlRules, x: Execution, p: Id, owner: Id, until: int, now: int)
    requires FrontierOk(rules, x) && Claimable(x, p, now) && x.counts.queued > 0
    ensures var y := ClaimRow(x, p, owner, until);
      StatusOk(y) && x.pages[p].accepted == None && PageOk(y.pages[p], y.host)
  {
    hide TreeOk, Settles, TerminalOutcome, BatchRowsOk;
    assert PageOk(x.pages[p], x.host);
  }

  lemma ClaimKeeps(rules: UrlRules, x: Execution, p: Id, owner: Id, until: int, now: int)
    requires FrontierOk(rules, x) && Claimable(x, p, now)
    ensures FrontierOk(rules, ClaimRow(x, p, owner, until))
  {
    hide Settles, TerminalOutcome;
    var y := ClaimRow(x, p, owner, until);
    CountWitness(x.pages, p);
    ClaimParts(rules, x, p, owner, until, now);
    hide FrontierOk, CountersMatch, PagesOk, TreeOk, StatusOk, Count;
    ReplacePage(rules, x, y, p);
  }

  lemma ExtendKeeps(rules: UrlRules, x: Execution, p: Id, until: int)
    requires FrontierOk(rules, x) && p in x.pages && x.pages[p].lease.Some?
    ensures FrontierOk(rules, ExtendLease(x, p, until))
  {
    ReplacePage(rules, x, ExtendLease(x, p, until), p);
  }

  lemma RequeueKeeps(rules: UrlRules, x: Execution, p: Id, retryAt: int)
    requires FrontierOk(rules, x) && p in x.pages && x.pages[p].status == PageLeased && x.pages[p].attempts < MAX_ATTEMPTS
    ensures FrontierOk(rules, RequeueRow(x, p, retryAt))
  {
    CountWitness(x.pages, p);
    ReplacePage(rules, x, RequeueRow(x, p, retryAt), p);
  }

  // ------------------------------------------------------- accepted results

  lemma StageCount(pages: map<Id, Page>, p: Id, result: PageResult, urls: seq<string>, ids: seq<Id>, now: int, status: PageStatus)
    requires p in pages && pages[p].status == PageLeased && FreshIds(pages, ids) && |urls| <= |ids|
    ensures var r := InsertPages(pages[p := StagedPage(pages[p], result)], p, pages[p], urls, ids, now);
      && |r| == |pages| + |urls|
      && Count(r, status) == Count(pages, status) + (if status == PageQueued then |urls| else 0)
                           + One(status == PagePersisting) - One(status == PageLeased)
  {
    var base := pages[p := StagedPage(pages[p], result)];
    assert base.Keys == pages.Keys;
    assert |base| == |pages|;
    MoveOne(pages, p, StagedPage(pages[p], result), status);
    InsertCounts(base, p, pages[p], urls, ids, now, status);
  }

  lemma StageBatches(batches: map<Id, Batch>, p: Id, now: int)
    requires p !in batches
    ensures var r := batches[p := Batch(Pending, 0, now, None)];
      |r| == |batches| + 1 && DeliveredBatches(r) == DeliveredBatches(batches)
  {
    assert batches[p := Batch(Pending, 0, now, None)].Keys == batches.Keys + {p};
  }

  lemma StageCounters(rules: UrlRules, x: Execution, p: Id, result: PageResult, ids: seq<Id>, now: int)
    requires CountersMatch(x) && p !in x.batches
    requires p in x.pages && x.pages[p].status == PageLeased && FreshIds(x.pages, ids) && |result.links| <= |ids|
    ensures CountersMatch(StageRow(rules, x, p, result, ids, now))
  {
    var urls := NewUrls(rules, x, p, result.links);
    StageCount(x.pages, p, result, urls, ids, now, PageQueued);
    StageCount(x.pages, p, result, urls, ids, now, PageLeased);
    StageCount(x.pages, p, result, urls, ids, now, PagePersisting);
    StageCount(x.pages, p, result, urls, ids, now, PageSucceeded);
    StageCount(x.pages, p, result, urls, ids, now, PageFailed);
    StageCount(x.pages, p, result, urls, ids, now, PageSkipped);
    StageCount(x.pages, p, result, urls, ids, now, PageCancelled);
    StageBatches(x.batches, p, now);
  }

  /** The rows of the staged execution: the staged page, the other old pages, one new page per URL. */
  ghost predicate StagedRows(x: Execution, y: Execution, p: Id, result: PageResult, urls: seq<string>, ids: seq<Id>, now: int) {
    && p in x.pages && |urls| <= |ids|
    && (forall q :: q in y.pages <==> q in x.pages || q in ids[..|urls|])
    && (forall q :: q in x.pages ==> y.pages[q] == if q == p then StagedPage(x.pages[p], result) else x.pages[q])
    && (forall i :: 0 <= i < |urls| ==> ids[i] in y.pages && y.pages[ids[i]] == DiscoveredPage(p, x.pages[p], urls[i], now))
  }

  lemma StageRows(rules: UrlRules, x: Execution, p: Id, result: PageResult, ids: seq<Id>, now: int)
    requires p in x.pages && FreshIds(x.pages, ids) && |result.links| <= |ids|
    ensures StagedRows(x, StageRow(rules, x, p, result, ids, now), p, result, NewUrls(rules, x, p, result.links), ids, now)
  {
    InsertedRows(x.pages[p := StagedPage(x.pages[p], result)], p, x.pages[p], NewUrls(rules, x, p, result.links), ids, now);
  }

  lemma StagedPageOk(page: Page, host: string, result: PageResult)
    requires PageOk(page, host) && page.status == PageLeased && Settles(result, page.attempts)
    ensures PageOk(StagedPage(page, result), host)
  {
    hide Settles, TerminalOutcome;
  }

  lemma DiscoveredPageOk(p: Id, page: Page, host: string, url: string, now: int)
    requires PageOk(page, host)
    ensures PageOk(DiscoveredPage(p, page, url, now), host) && DiscoveredPage(p, page, url, now).accepted == None
  {
    hide Settles, TerminalOutcome;
  }

  lemma StagePageRows(x: Execution, y: Execution, p: Id, result: PageResult, urls: seq<string>, ids: seq<Id>, now: int)
    requires PageRowsOk(x.pages, x.host) && StagedRows(x, y, p, result, urls, ids, now) && x.pages[p].status == PageLeased
    requires Settles(result, x.pages[p].attempts) && y.host == x.host
    ensures PageRowsOk(y.pages, y.host)
    ensures forall q :: q in y.pages && q !in x.pages ==> y.pages[q].accepted == None
  {
    hide PageOk, Settles, DiscoveredPage, StagedPage;
    forall q | q in y.pages
      ensures PageOk(y.pages[q], y.host) && (q !in x.pages ==> y.pages[q].accepted == None)
    {
      if q !in x.pages {
        var i :| 0 <= i < |urls| && ids[i] == q;
        DiscoveredPageOk(p, x.pages[p], x.host, urls[i], now);
      } else if q == p {
        StagedPageOk(x.pages[p], x.host, result);
      }
    }
  }

  lemma StageBatchRows(x: Execution, y: Execution, p: Id, result: PageResult, urls: seq<string>, ids: seq<Id>, now: int)
    requires BatchRowsOk(x.pages, x.batches) && StagedRows(x, y, p, result, urls, ids, now) && x.pages[p].accepted == None
    requires forall q :: q in y.pages && q !in x.pages ==> y.pages[q].accepted == None
    requires y.batches == x.batches[p := Batch(Pending, 0, now, None)]
    ensures BatchRowsOk(y.pages, y.batches)
  {
    hide DiscoveredPage;
  }

  lemma StagePages(x: Execution, y: Execution, p: Id, result: PageResult, urls: seq<string>, ids: seq<Id>, now: int)
    requires PagesOk(x)
    requires StagedRows(x, y, p, result, urls, ids, now) && x.pages[p].status == PageLeased
    requires Settles(result, x.pages[p].attempts)
    requires y.host == x.host && y.batches == x.batches[p := Batch(Pending, 0, now, None)]
    ensures PagesOk(y)
  {
    LeasedWithoutResult(x, p);
    PagesParts(x);
    hide PageRowsOk, BatchRowsOk, StagedRows, Settles;
    assert p in x.pages;
    StagePageRows(x, y, p, result, urls, ids, now);
    StageBatchRows(x, y, p, result, urls, ids, now);
  }

  lemma LeasedWithoutResult(x: Execution, p: Id)
    requires PagesOk(x) && p in x.pages && x.pages[p].status == PageLeased
    ensures x.pages[p].accepted == None
  {
    hide Settles, TerminalOutcome, BatchRowsOk;
    assert PageOk(x.pages[p], x.host);
  }

  lemma StageUrls(x: Execution, y: Execution, p: Id, result: PageResult, urls: seq<string>, ids: seq<Id>, now: int)
    requires StagedRows(x, y, p, result, urls, ids, now)
    ensures Urls(y.pages) == Urls(x.pages) + (set u | u in urls)
  {
    forall u | u in urls ensures u in Urls(y.pages) {
      var i :| 0 <= i < |urls| && urls[i] == u;
      assert y.pages[ids[i]].url == u;
    }
    forall u | u in Urls(x.pages) ensures u in Urls(y.pages) {
      var q :| q in x.pages && x.pages[q].url == u;
      assert y.pages[q].url == u;
    }
    forall u | u in Urls(y.pages) ensures u in Urls(x.pages) || u in urls {
      var q :| q in y.pages && y.pages[q].url == u;
      if q in x.pages {
        assert x.pages[q].url == u;
      } else {
        var i :| 0 <= i < |urls| && ids[i] == q;
      }
    }
  }

  /** No URL enters the frontier twice. */
  lemma StageUniqueUrls(x: Execution, y: Execution, p: Id, result: PageResult, urls: seq<string>, ids: seq<Id>, now: int)
    requires StagedRows(x, y, p, result, urls, ids, now)
    requires UniqueUrls(x.pages)
    requires Distinct(urls) && forall u :: u in urls ==> u !in Urls(x.pages)
    ensures UniqueUrls(y.pages)
  {
    forall a, b | SameUrl(y.pages, a, b) ensures a == b {
      assert a in x.pages && b in x.pages ==> SameUrl(x.pages, a, b);
      assert forall q :: q in x.pages ==> x.pages[q].url == y.pages[q].url && y.pages[q].url in Urls(x.pages);
      assert forall q :: q in y.pages && q !in x.pages ==> exists i :: 0 <= i < |urls| && ids[i] == q;
      assert forall i :: 0 <= i < |urls| ==> urls[i] in urls && y.pages[ids[i]].url == urls[i];
    }
  }

  lemma StageDiscovered(rules: UrlRules, x: Execution, y: Execution, p: Id, result: PageResult, urls: seq<string>, ids: seq<Id>, now: int, q: Id)
    requires StagedRows(x, y, p, result, urls, ids, now) && SameCommand(x, y)
    requires q in y.pages && x.pages[p].accepted == None
    requires q in x.pages ==> Discovered(rules, x, q)
    requires forall u :: u in urls ==> LeadsTo(rules, x.host, result.links, u)
    requires urls != [] ==> x.pages[p].depth < x.maxDepth
    ensures Discovered(rules, y, q)
  {
    if q !in x.pages {
      var i :| 0 <= i < |urls| && ids[i] == q;
      assert urls[i] in urls;
    }
  }

  lemma StageFollowed(rules: UrlRules, x: Execution, y: Execution, p: Id, result: PageResult, urls: seq<string>, ids: seq<Id>, now: int, q: Id)
    requires StagedRows(x, y, p, result, urls, ids, now) && SameCommand(x, y)
    requires q in y.pages && y.counts.discovered == x.counts.discovered + |urls| && Urls(x.pages) <= Urls(y.pages)
    requires q in x.pages && q != p ==> Followed(rules, x, q)
    requires y.counts.discovered < y.maxPages && x.pages[p].depth < x.maxDepth ==>
      forall u :: LeadsTo(rules, x.host, result.links, u) ==> u in Urls(y.pages)
    ensures Followed(rules, y, q)
  {
    if q !in x.pages {
      var i :| 0 <= i < |urls| && ids[i] == q;
    }
  }

  lemma StageTree(rules: UrlRules, x: Execution, p: Id, result: PageResult, ids: seq<Id>, now: int)
    requires TreeOk(rules, x) && x.counts.discovered <= x.maxPages
    requires p in x.pages && x.pages[p].accepted == None && FreshIds(x.pages, ids) && |result.links| <= |ids|
    ensures TreeOk(rules, StageRow(rules, x, p, result, ids, now))
  {
    var y := StageRow(rules, x, p, result, ids, now);
    var urls := NewUrls(rules, x, p, result.links);
    StageRows(rules, x, p, result, ids, now);
    StageUrls(x, y, p, result, urls, ids, now);
    StageUniqueUrls(x, y, p, result, urls, ids, now);
    forall q | q in y.pages && q != y.seed ensures Discovered(rules, y, q) {
      StageDiscovered(rules, x, y, p, result, urls, ids, now, q);
    }
    forall q | q in y.pages ensures Followed(rules, y, q) {
      StageFollowed(rules, x, y, p, result, urls, ids, now, q);
    }
  }

  lemma StageKeeps(rules: UrlRules, x: Execution, p: Id, result: PageResult, ids: seq<Id>, now: int)
    requires FrontierOk(rules, x)
    requires p in x.pages && x.pages[p].status == PageLeased && FreshIds(x.pages, ids) && |result.links| <= |ids|
    requires Settles(result, x.pages[p].attempts)
    ensures FrontierOk(rules, StageRow(rules, x, p, result, ids, now))
  {
    hide Settles, TerminalOutcome;
    var y := StageRow(rules, x, p, result, ids, now);
    StageCounters(rules, x, p, result, ids, now);
    StageRows(rules, x, p, result, ids, now);
    StagePages(x, y, p, result, NewUrls(rules, x, p, result.links), ids, now);
    StageTree(rules, x, p, result, ids, now);
    CountWitness(x.pages, p);
    CountWitness(y.pages, p);
  }

  // --------------------------------------------------- terminal transitions

  ghost predicate RowsOk(rules: UrlRules, x: Execution) {
    CountersMatch(x) && PagesOk(x) && TreeOk(rules, x)
  }

  /** Between the row updates of a transaction and its terminal test. */
  ghost predicate Draining(x: Execution) {
    && x.status != Indexing && !Terminal(x.status)
    && (x.status == CancelRequested ==> x.counts.queued == 0 && x.counts.leased == 0)
    && (x.status == Queued ==> x.counts.leased == 0 && x.counts.persisting == 0)
  }

  ghost predicate Settled(y: Execution, z: Execution) {
    && z.counts == y.counts
    && z.status == if Quiescent(y) then FinalStatus(y) else y.status
  }

  lemma SettleStatus(y: Execution, z: Execution)
    requires Draining(y) && Settled(y, z)
    ensures StatusOk(z)
  {}

  lemma FinalizeBatches(batches: map<Id, Batch>, p: Id)
    requires p in batches && batches[p].status != Delivered
    ensures var r := batches[p := batches[p].(status := Delivered, lease := None)];
      |r| == |batches| && |DeliveredBatches(r)| == |DeliveredBatches(batches)| + 1
  {
    var r := batches[p := batches[p].(status := Delivered, lease := None)];
    assert r.Keys == batches.Keys;
    assert DeliveredBatches(r) == DeliveredBatches(batches) + {p};
  }

  lemma FinalizePages(x: Execution, p: Id)
    requires PagesOk(x) && p in x.batches && p in x.pages && x.pages[p].status == PagePersisting && x.pages[p].pending.Some?
    ensures PagesOk(FinalizePage(x, p))
  {
    hide Settles;
  }

  lemma PersistingBatch(x: Execution, p: Id)
    requires PagesOk(x) && p in x.pages && x.pages[p].status == PagePersisting
    ensures p in x.batches && x.batches[p].status != Delivered && x.pages[p].accepted.Some?
    ensures x.pages[p].pending == Some(TerminalOutcome(x.pages[p].accepted.value))
  {
    hide Settles, TerminalOutcome;
    assert PageOk(x.pages[p], x.host);
  }

  lemma OutcomeIsFinal(result: PageResult)
    ensures TerminalOutcome(result) == PageSucceeded || TerminalOutcome(result) == PageSkipped || TerminalOutcome(result) == PageFailed
  {}

  lemma FinalizeKeeps(rules: UrlRules, x: Execution, p: Id)
    requires RowsOk(rules, x) && p in x.pages && x.pages[p].status == PagePersisting
    ensures RowsOk(rules, FinalizePage(x, p))
  {
    hide Settles, TerminalOutcome, PagesOk, TreeOk, CountersMatch;
    PersistingBatch(x, p);
    OutcomeIsFinal(x.pages[p].accepted.value);
    var y := FinalizePage(x, p);
    FinalizeBatches(x.batches, p);
    FinalizePages(x, p);
    FinalizeCounters(x, p);
    ReplacePlace(x.pages, p, y.pages[p]);
    TreeFrame(rules, x, y);
  }

  lemma FinalizeCounters(x: Execution, p: Id)
    requires CountersMatch(x) && p in x.batches && x.batches[p].status != Delivered
    requires p in x.pages && x.pages[p].status == PagePersisting && x.pages[p].pending.Some?
    requires x.pages[p].pending.value in {PageSucceeded, PageSkipped, PageFailed}
    ensures CountersMatch(FinalizePage(x, p))
  {
    FinalizeBatches(x.batches, p);
    hide DeliveredBatches;
    ReplaceCounters(x, FinalizePage(x, p), p);
    hide Count;
  }

  lemma AnalyticsKeeps(rules: UrlRules, x: Execution, p: Id)
    requires FrontierOk(rules, x) && p in x.pages && x.pages[p].status == PagePersisting
    ensures FrontierOk(rules, AnalyticsRow(x, p))
  {
    var y, z := FinalizePage(x, p), AnalyticsRow(x, p);
    CountWitness(x.pages, p);
    FinalizeKeeps(rules, x, p);
    AnalyticsConservation(y);
    SettleStatus(y, z);
    TreeFrame(rules, y, z);
  }

  /** A row without a result goes from one status to another. */
  ghost predicate RowMove(a: Page, b: Page, host: string, from: PageStatus, to: PageStatus) {
    && a.status == from && b.status == to && a.accepted == None
    && b == a.(status := to, lease := b.lease, pending := b.pending, availableAt := b.availableAt)
    && PageOk(b, host)
  }

  ghost predicate RowMoves(a: map<Id, Page>, b: map<Id, Page>, moved: set<Id>, host: string, from: PageStatus, to: PageStatus) {
    && from != to && b.Keys == a.Keys && moved <= a.Keys
    && forall p :: p in a ==> if p in moved then RowMove(a[p], b[p], host, from, to) else b[p] == a[p]
  }

  /** A bulk status change of rows without a result, counters included. */
  ghost predicate BulkChange(x: Execution, y: Execution, moved: set<Id>, from: PageStatus, to: PageStatus) {
    && SameCommand(x, y) && y.batches == x.batches
    && y.counts.expected == x.counts.expected && y.counts.published == x.counts.published
    && RowMoves(x.pages, y.pages, moved, y.host, from, to)
    && Moved(x.counts, y.counts, from, to, |moved|)
    && y.counts.leased <= y.maxConcurrency
  }

  lemma RowMovesPlaces(a: map<Id, Page>, b: map<Id, Page>, moved: set<Id>, host: string, from: PageStatus, to: PageStatus)
    requires RowMoves(a, b, moved, host, from, to)
    ensures SamePlaces(a, b) && MovesBetween(a, b, moved, from, to)
  {}

  lemma BulkCounters(x: Execution, y: Execution, moved: set<Id>, from: PageStatus, to: PageStatus)
    requires CountersMatch(x) && BulkChange(x, y, moved, from, to) && MovesBetween(x.pages, y.pages, moved, from, to)
    ensures CountersMatch(y)
  {
    hide Count;
    assert |y.pages.Keys| == |x.pages.Keys|;
    BulkMove(x.pages, y.pages, moved, from, to, PageQueued);
    BulkMove(x.pages, y.pages, moved, from, to, PageLeased);
    BulkMove(x.pages, y.pages, moved, from, to, PagePersisting);
    BulkMove(x.pages, y.pages, moved, from, to, PageSucceeded);
    BulkMove(x.pages, y.pages, moved, from, to, PageFailed);
    BulkMove(x.pages, y.pages, moved, from, to, PageSkipped);
    BulkMove(x.pages, y.pages, moved, from, to, PageCancelled);
  }

  lemma BulkPages(a: map<Id, Page>, b: map<Id, Page>, batches: map<Id, Batch>, moved: set<Id>, host: string, from: PageStatus, to: PageStatus)
    requires PageRowsOk(a, host) && BatchRowsOk(a, batches) && RowMoves(a, b, moved, host, from, to)
    ensures PageRowsOk(b, host) && BatchRowsOk(b, batches)
  {
    forall p | p in b ensures PageOk(b[p], host) && b[p].accepted == a[p].accepted && (p in batches ==> b[p] == a[p]) {
      assert p in moved ==> RowMove(a[p], b[p], host, from, to);
    }
  }

  lemma BulkKeeps(rules: UrlRules, x: Execution, y: Execution, moved: set<Id>, from: PageStatus, to: PageStatus)
    requires RowsOk(rules, x) && BulkChange(x, y, moved, from, to)
    ensures RowsOk(rules, y)
  {
    RowMovesPlaces(x.pages, y.pages, moved, y.host, from, to);
    BulkCounters(x, y, moved, from, to);
    BulkPages(x.pages, y.pages, x.batches, moved, x.host, from, to);
    TreeFrame(rules, x, y);
  }

  /** The two halves of a cancellation: first the queued pages, then the leased ones. */
  function CancelQueued(x: Execution): Execution {
    var queued := WithStatus(x.pages, PageQueued);
    x.(pages := map p | p in x.pages :: if p in queued then CancelledPage(x.pages[p]) else x.pages[p],
       counts := x.counts.(queued := x.counts.queued - |queued|, cancelled := x.counts.cancelled + |queued|))
  }

  function CancelLeased(x: Execution): Execution {
    var leased := WithStatus(x.pages, PageLeased);
    x.(pages := map p | p in x.pages :: if p in leased then CancelledPage(x.pages[p]) else x.pages[p],
       counts := x.counts.(leased := x.counts.leased - |leased|, cancelled := x.counts.cancelled + |leased|))
  }

  lemma CancelledRowMove(page: Page, host: string)
    requires PageOk(page, host) && (page.status == PageQueued || page.status == PageLeased)
    ensures RowMove(page, CancelledPage(page), host, page.status, PageCancelled)
  {}

  lemma CancelQueuedChange(x: Execution)
    requires PagesOk(x) && x.counts.leased <= x.maxConcurrency
    ensures BulkChange(x, CancelQueued(x), WithStatus(x.pages, PageQueued), PageQueued, PageCancelled)
  {
    forall p | p in WithStatus(x.pages, PageQueued)
      ensures RowMove(x.pages[p], CancelledPage(x.pages[p]), x.host, PageQueued, PageCancelled)
    {
      CancelledRowMove(x.pages[p], x.host);
    }
  }

  lemma CancelLeasedChange(x: Execution)
    requires PagesOk(x) && x.counts.leased <= x.maxConcurrency
    ensures BulkChange(x, CancelLeased(x), WithStatus(x.pages, PageLeased), PageLeased, PageCancelled)
  {
    forall p | p in WithStatus(x.pages, PageLeased)
      ensures RowMove(x.pages[p], CancelledPage(x.pages[p]), x.host, PageLeased, PageCancelled)
    {
      CancelledRowMove(x.pages[p], x.host);
    }
  }

  /** Nothing but row data decides whether the rows are in order. */
  lemma RowsFrame(rules: UrlRules, x: Execution, y: Execution)
    requires RowsOk(rules, x) && SameCommand(x, y)
    requires y.pages == x.pages && y.batches == x.batches && y.counts == x.counts
    ensures RowsOk(rules, y)
  {
    TreeFrame(rules, x, y);
  }

  lemma CancelHalves(x: Execution, version: int)
    ensures CancelRow(x, version).pages == CancelLeased(CancelQueued(x)).pages
    ensures CancelRow(x, version).counts == CancelLeased(CancelQueued(x)).counts
  {
    assert WithStatus(CancelQueued(x).pages, PageLeased) == WithStatus(x.pages, PageLeased);
  }

  lemma CancelKeepsRows(rules: UrlRules, x: Execution, version: int)
    requires RowsOk(rules, x)
    ensures RowsOk(rules, CancelRow(x, version))
  {
    var a := CancelQueued(x);
    var b := CancelLeased(a);
    CancelQueuedChange(x);
    BulkKeeps(rules, x, a, WithStatus(x.pages, PageQueued), PageQueued, PageCancelled);
    CancelLeasedChange(a);
    BulkKeeps(rules, a, b, WithStatus(a.pages, PageLeased), PageLeased, PageCancelled);
    CancelHalves(x, version);
    RowsFrame(rules, b, CancelRow(x, version));
  }

  lemma CancelStatus(x: Execution, version: int)
    requires CountersMatch(x) && !Terminal(x.status) && x.counts.expected == x.counts.published + x.counts.persisting
    ensures StatusOk(CancelRow(x, version))
  {}

  lemma CancelKeeps(rules: UrlRules, x: Execution, version: int)
    requires FrontierOk(rules, x) && !Terminal(x.status)
    ensures FrontierOk(rules, CancelRow(x, version))
  {
    hide PagesOk, TreeOk, CountersMatch;
    CancelKeepsRows(rules, x, version);
    AnalyticsConservation(x);
    CancelStatus(x, version);
  }

  // ----------------------------------------------------------- reclamation

  function FailSpent(x: Execution, spent: set<Id>, now: int): Execution {
    x.(pages := map p | p in x.pages :: if p in spent then ExpiredPage(x.pages[p], now) else x.pages[p],
       counts := x.counts.(leased := x.counts.leased - |spent|, failed := x.counts.failed + |spent|))
  }

  lemma ExpiredRowMove(page: Page, host: string, now: int)
    requires PageOk(page, host) && PageExpired(page, now)
    ensures RowMove(page, ExpiredPage(page, now), host, PageLeased, if page.attempts >= MAX_ATTEMPTS then PageFailed else PageQueued)
  {}

  lemma FailSpentChange(x: Execution, spent: set<Id>, now: int)
    requires PagesOk(x) && x.counts.leased <= x.maxConcurrency
    requires forall p :: p in spent ==> p in x.pages && PageExpired(x.pages[p], now) && x.pages[p].attempts >= MAX_ATTEMPTS
    ensures BulkChange(x, FailSpent(x, spent, now), spent, PageLeased, PageFailed)
  {
    forall p | p in spent ensures RowMove(x.pages[p], ExpiredPage(x.pages[p], now), x.host, PageLeased, PageFailed) {
      ExpiredRowMove(x.pages[p], x.host, now);
    }
  }

  function RequeueRest(x: Execution, rest: set<Id>, now: int): Execution {
    x.(pages := map p | p in x.pages :: if p in rest then ExpiredPage(x.pages[p], now) else x.pages[p],
       counts := x.counts.(leased := x.counts.leased - |rest|, queued := x.counts.queued + |rest|))
  }

  lemma RequeueRestChange(x: Execution, rest: set<Id>, now: int)
    requires PagesOk(x) && x.counts.leased <= x.maxConcurrency
    requires forall p :: p in rest ==> p in x.pages && PageExpired(x.pages[p], now) && x.pages[p].attempts < MAX_ATTEMPTS
    ensures BulkChange(x, RequeueRest(x, rest, now), rest, PageLeased, PageQueued)
  {
    forall p | p in rest ensures RowMove(x.pages[p], ExpiredPage(x.pages[p], now), x.host, PageLeased, PageQueued) {
      ExpiredRowMove(x.pages[p], x.host, now);
    }
  }

  lemma ReclaimHalves(x: Execution, now: int)
    requires ExpiredSet(x, now) != {}
    ensures var a := FailSpent(x, SpentSet(x, now), now);
      var y := RequeueRest(a, ExpiredSet(x, now) - SpentSet(x, now), now);
      ReclaimLeases(x, now).pages == y.pages && ReclaimLeases(x, now).counts == y.counts
  {
    var expired, spent := ExpiredSet(x, now), SpentSet(x, now);
    DisjointUnion(expired - spent, spent);
    assert expired == (expired - spent) + spent;
  }

  lemma ReclaimLeasesKeeps(rules: UrlRules, x: Execution, now: int)
    requires RowsOk(rules, x)
    ensures RowsOk(rules, ReclaimLeases(x, now))
  {
    var expired, spent := ExpiredSet(x, now), SpentSet(x, now);
    if expired != {} {
      var a := FailSpent(x, spent, now);
      FailSpentChange(x, spent, now);
      BulkKeeps(rules, x, a, spent, PageLeased, PageFailed);
      var b := RequeueRest(a, expired - spent, now);
      RequeueRestChange(a, expired - spent, now);
      BulkKeeps(rules, a, b, expired - spent, PageLeased, PageQueued);
      ReclaimHalves(x, now);
      RowsFrame(rules, b, ReclaimLeases(x, now));
    }
  }

  lemma ReclaimDeadlineChange(x: Execution, now: int)
    requires PagesOk(x) && x.counts.leased <= x.maxConcurrency && ReclaimDeadline(x, now) != x
    ensures BulkChange(x, ReclaimDeadline(x, now), WithStatus(x.pages, PageQueued), PageQueued, PageFailed)
  {
    forall p | p in WithStatus(x.pages, PageQueued)
      ensures RowMove(x.pages[p], OverduePage(x.pages[p]), x.host, PageQueued, PageFailed)
    {
      assert PageOk(x.pages[p], x.host);
    }
  }

  lemma ReclaimDeadlineKeeps(rules: UrlRules, x: Execution, now: int)
    requires RowsOk(rules, x)
    ensures RowsOk(rules, ReclaimDeadline(x, now))
  {
    var y := ReclaimDeadline(x, now);
    if y != x {
      ReclaimDeadlineChange(x, now);
      BulkKeeps(rules, x, y, WithStatus(x.pages, PageQueued), PageQueued, PageFailed);
    }
  }

  lemma ReclaimDeliveriesRows(x: Execution, now: int)
    requires PagesOk(x)
    ensures var y := ReclaimDeliveries(x, now);
      PagesOk(y) && |y.batches| == |x.batches| && DeliveredBatches(y.batches) == DeliveredBatches(x.batches)
  {
    assert ReclaimDeliveries(x, now).batches.Keys == x.batches.Keys;
  }

  lemma ReclaimDeliveriesKeeps(rules: UrlRules, x: Execution, now: int)
    requires FrontierOk(rules, x)
    ensures FrontierOk(rules, ReclaimDeliveries(x, now))
  {
    ReclaimDeliveriesRows(x, now);
    TreeFrame(rules, x, ReclaimDeliveries(x, now));
  }

  /** An execution with no leased page has no lease to reclaim. */
  lemma NothingToReclaim(x: Execution, now: int)
    requires CountersMatch(x) && x.counts.leased == 0
    ensures ReclaimLeases(x, now) == x
  {
    assert ExpiredSet(x, now) <= WithStatus(x.pages, PageLeased);
  }

  lemma DrainingLeases(x: Execution, now: int)
    requires CountersMatch(x) && Draining(x)
    ensures Draining(ReclaimLeases(x, now))
  {
    if x.counts.leased == 0 {
      NothingToReclaim(x, now);
    }
  }

  lemma DrainingDeadline(x: Execution, now: int)
    requires Draining(x)
    ensures Draining(ReclaimDeadline(x, now))
  {}

  lemma TerminalizeKeeps(rules: UrlRules, x: Execution)
    requires RowsOk(rules, x) && Draining(x)
    ensures FrontierOk(rules, Terminalize(x))
  {
    AnalyticsConservation(x);
    SettleStatus(x, Terminalize(x));
    RowsFrame(rules, x, Terminalize(x));
  }

  /** Reclamation finds nothing to do in a terminal execution. */
  lemma ReclaimTerminal(x: Execution, skipLeases: bool, skipDeadline: bool, now: int)
    requires CountersMatch(x) && Terminal(x.status) && x.counts.leased == 0
    ensures ReclaimRow(x, skipLeases, skipDeadline, now) == ReclaimDeliveries(x, now)
  {
    var a := ReclaimDeliveries(x, now);
    assert ExpiredSet(a, now) <= WithStatus(x.pages, PageLeased);
  }

  lemma ReclaimKeeps(rules: UrlRules, x: Execution, skipLeases: bool, skipDeadline: bool, now: int)
    requires FrontierOk(rules, x)
    ensures FrontierOk(rules, ReclaimRow(x, skipLeases, skipDeadline, now))
  {
    var a := ReclaimDeliveries(x, now);
    ReclaimDeliveriesKeeps(rules, x, now);
    if Terminal(x.status) {
      ReclaimTerminal(x, skipLeases, skipDeadline, now);
    } else {
      var b := if skipLeases then a else ReclaimLeases(a, now);
      ReclaimLeasesKeeps(rules, a, now);
      DrainingLeases(a, now);
      var c := if skipDeadline then b else ReclaimDeadline(b, now);
      ReclaimDeadlineKeeps(rules, b, now);
      DrainingDeadline(b, now);
      TerminalizeKeeps(rules, c);
    }
  }

  // -------------------------------------------------------- outbox delivery

  lemma BatchRows(x: Execution, p: Id, batch: Batch)
    requires PagesOk(x) && p in x.batches
    requires x.batches[p].status != Delivered && batch.status != Delivered
    requires batch.lease.Some? <==> batch.status == Claimed
    ensures PagesOk(x.(batches := x.batches[p := batch]))
    ensures |x.batches[p := batch]| == |x.batches|
    ensures DeliveredBatches(x.batches[p := batch]) == DeliveredBatches(x.batches)
  {
    assert x.batches[p := batch].Keys == x.batches.Keys;
  }

  lemma BatchKeeps(rules: UrlRules, x: Execution, p: Id, batch: Batch)
    requires FrontierOk(rules, x) && p in x.batches
    requires x.batches[p].status != Delivered && batch.status != Delivered
    requires batch.lease.Some? <==> batch.status == Claimed
    ensures FrontierOk(rules, x.(batches := x.batches[p := batch]))
  {
    BatchRows(x, p, batch);
    TreeFrame(rules, x, x.(batches := x.batches[p := batch]));
  }
}
