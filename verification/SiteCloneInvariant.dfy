/** What every reachable site-clone job satisfies. */
module SiteCloneInvariant {
  import opened Common
  import opened SiteClone

  ghost predicate PageOk(page: Page, limits: Limits, status: JobStatus, ingested: bool) {
    && page.attempts <= limits.maxRetries
    && (page.status == Queued ==> page.attempts < limits.maxRetries)
    && (page.lease.Some? <==> page.status == Rendering)
    && (page.bundle != NoBundle <==> page.status == Succeeded)
    && (page.bundle == BundlePending || page.bundle == BundleDeleted ==> Terminal(status))
    && (page.status == Rendering ==> status == Running || status == CancelRequested)
    && (page.rejected ==> page.status == PageCancelled)
    && (page.status == PageCancelled ==> (page.rejected <==> page.code != USER_CANCELLED))
    && (!ingested ==> page.status == Queued || page.status == PageCancelled)
    && (page.status == PageFailed && page.code != OVER_BUDGET ==> page.attempts == limits.maxRetries)
  }

  ghost predicate PagesOk(x: Job) {
    forall p :: p in x.pages ==> PageOk(x.pages[p], x.limits, x.status, x.ingested)
  }

  /** The incremental counters equal a recount of the page rows, and respect the job's limits. */
  ghost predicate CountersOk(x: Job) {
    && x.succeeded == Total(x.pages, IsSucceeded)
    && x.failed == Total(x.pages, IsFailed)
    && x.processed == x.succeeded + x.failed
    && x.inputBytes == Total(x.pages, SucceededBytes) <= x.limits.maxInputBytes
    && Total(x.pages, IsRendering) <= x.limits.pageConcurrency
    && |x.pages| <= x.limits.maxPages
    && (x.ingested ==> x.discovered == |x.pages|)
  }

  ghost predicate StatusOk(x: Job) {
    && ValidLimits(x.limits)
    && (x.status == Ingesting ==> !x.ingested)
    && (x.status == Running || x.status == Assembling || x.status == Published || x.status == Partial ==> x.ingested)
    && (x.status == Assembling || x.status == Published || x.status == Partial ==> NoOpenPages(x))
    && (x.status == Assembling || x.status == Published || x.status == Partial || x.status == Expired ==> x.succeeded > 0)
    && (x.phaseLease.Some? ==> x.status == Ingesting || x.status == Assembling)
    && (x.status == Published ==> x.failed == 0 && !AnyCancelled(x))
    && (x.status == Partial ==> x.failed > 0 || AnyCancelled(x))
  }

  ghost predicate ArtifactsOk(x: Job) {
    forall k {:trigger x.artifacts[k]} :: k in x.artifacts ==>
      && k.generation <= x.phaseGeneration
      && (x.artifacts[k].state == Live || x.artifacts[k].state == DeletePending ==>
            (x.status == Published || x.status == Partial) && k.generation == x.phaseGeneration)
  }

  ghost predicate CloneOk(x: Job) {
    PagesOk(x) && CountersOk(x) && StatusOk(x) && ArtifactsOk(x)
  }

  // ------------------------------------------------------------------ tallies

  /** Replacing one row moves every recount by the difference of the two rows. */
  lemma Replaced(pages: map<Id, Page>, p: Id, page: Page)
    requires p in pages
    ensures Total(pages[p := page], IsSucceeded) == Total(pages, IsSucceeded) + IsSucceeded(page) - IsSucceeded(pages[p])
    ensures Total(pages[p := page], IsFailed) == Total(pages, IsFailed) + IsFailed(page) - IsFailed(pages[p])
    ensures Total(pages[p := page], IsRendering) == Total(pages, IsRendering) + IsRendering(page) - IsRendering(pages[p])
    ensures Total(pages[p := page], SucceededBytes) == Total(pages, SucceededBytes) + SucceededBytes(page) - SucceededBytes(pages[p])
    ensures |pages[p := page]| == |pages|
  {
    TotalUpdate(pages, IsSucceeded, p, page);
    TotalUpdate(pages, IsFailed, p, page);
    TotalUpdate(pages, IsRendering, p, page);
    TotalUpdate(pages, SucceededBytes, p, page);
    assert pages[p := page].Keys == pages.Keys;
  }

  /** incrementJob is a recount that reads no rows, if and only if the row that has ended was not counted before. */
  lemma IncrementIsRecount(x: Job, p: Id, page: Page)
    requires Refresh(x) == x && p in x.pages && (page.status == Succeeded || page.status == PageFailed)
    ensures var y := x.(pages := x.pages[p := page]);
      Increment(y, page.status == Succeeded, SucceededBytes(page)) == Refresh(y)
      <==> x.pages[p].status != Succeeded && x.pages[p].status != PageFailed
  {
    Replaced(x.pages, p, page);
  }

  lemma {:induction false} SameTotal(a: map<Id, Page>, b: map<Id, Page>, weight: Page -> int)
    requires a.Keys == b.Keys && forall p :: p in a ==> weight(a[p]) == weight(b[p])
    ensures Total(a, weight) == Total(b, weight)
  {
    TotalCompare(a, b, weight);
    TotalCompare(b, a, weight);
  }

  lemma {:induction false} TallyNonNegative(pages: map<Id, Page>, weight: Page -> int, p: Id)
    requires forall q :: q in pages ==> 0 <= weight(pages[q])
    ensures 0 <= Total(pages, weight)
    ensures p in pages ==> weight(pages[p]) <= Total(pages, weight)
    decreases |pages|
  {
    if pages != map[] {
      var q :| q in pages && (p in pages ==> q == p);
      TotalRemove(pages, weight, q);
      assert pages.Keys == (pages - {q}).Keys + {q};
      TallyNonNegative(pages - {q}, weight, p);
    }
  }

  /** A page that succeeded or failed shows in the count. */
  lemma CountedPage(x: Job, p: Id)
    requires CountersOk(x) && p in x.pages
    ensures x.pages[p].status == Succeeded ==> x.succeeded > 0
    ensures x.pages[p].status == PageFailed ==> x.failed > 0
    ensures 0 <= x.succeeded && 0 <= x.failed
  {
    TallyNonNegative(x.pages, IsSucceeded, p);
    TallyNonNegative(x.pages, IsFailed, p);
  }

  lemma {:induction false} NoneWithWeight(pages: map<Id, Page>, weight: Page -> int)
    requires forall q :: q in pages ==> weight(pages[q]) == 0
    ensures Total(pages, weight) == 0
    decreases |pages|
  {
    if pages != map[] {
      var q :| q in pages;
      TotalRemove(pages, weight, q);
      assert pages.Keys == (pages - {q}).Keys + {q};
      NoneWithWeight(pages - {q}, weight);
    }
  }

  // ------------------------------------------------------ one page at a time

  /** A page transition that the incremental counters follow. */
  lemma PageStepKeeps(x: Job, y: Job, p: Id)
    requires CloneOk(x) && p in x.pages && p in y.pages
    requires y == x.(pages := x.pages[p := y.pages[p]], processed := y.processed, succeeded := y.succeeded, failed := y.failed, inputBytes := y.inputBytes)
    requires PageOk(y.pages[p], x.limits, x.status, x.ingested) && (Terminal(x.status) ==> y.pages[p].status == x.pages[p].status && y.pages[p].code == x.pages[p].code)
    requires Open(y.pages[p]) ==> Open(x.pages[p])
    requires x.pages[p].status == Succeeded ==> y.pages[p].status == Succeeded
    requires y.succeeded == x.succeeded + IsSucceeded(y.pages[p]) - IsSucceeded(x.pages[p])
    requires y.failed == x.failed + IsFailed(y.pages[p]) - IsFailed(x.pages[p])
    requires y.processed == y.succeeded + y.failed
    requires y.inputBytes == x.inputBytes + SucceededBytes(y.pages[p]) - SucceededBytes(x.pages[p]) <= x.limits.maxInputBytes
    requires Total(x.pages, IsRendering) + IsRendering(y.pages[p]) - IsRendering(x.pages[p]) <= x.limits.pageConcurrency
    ensures CloneOk(y)
  {
    hide PagesOk, CountersOk, StatusOk, ArtifactsOk, PageOk, SucceededBytes, IsRendering;
    PageStepPages(x, y, p);
    PageStepCounters(x, y, p);
    PageStepStatus(x, y, p);
    SameArtifacts(x, y);
  }

  lemma PageStepPages(x: Job, y: Job, p: Id)
    requires PagesOk(x) && p in x.pages && p in y.pages && y.pages == x.pages[p := y.pages[p]]
    requires y.limits == x.limits && y.status == x.status && y.ingested == x.ingested
    requires PageOk(y.pages[p], x.limits, x.status, x.ingested)
    ensures PagesOk(y)
  {
    hide PageOk;
  }

  lemma PageStepCounters(x: Job, y: Job, p: Id)
    requires CountersOk(x) && p in x.pages && p in y.pages && y.pages == x.pages[p := y.pages[p]]
    requires y.limits == x.limits && y.ingested == x.ingested && y.discovered == x.discovered
    requires y.succeeded == x.succeeded + IsSucceeded(y.pages[p]) - IsSucceeded(x.pages[p])
    requires y.failed == x.failed + IsFailed(y.pages[p]) - IsFailed(x.pages[p])
    requires y.processed == y.succeeded + y.failed
    requires y.inputBytes == x.inputBytes + SucceededBytes(y.pages[p]) - SucceededBytes(x.pages[p]) <= x.limits.maxInputBytes
    requires Total(x.pages, IsRendering) + IsRendering(y.pages[p]) - IsRendering(x.pages[p]) <= x.limits.pageConcurrency
    ensures CountersOk(y)
  {
    Replaced(x.pages, p, y.pages[p]);
    hide IsSucceeded, IsFailed, SucceededBytes, IsRendering;
  }

  lemma SameArtifacts(x: Job, y: Job)
    requires ArtifactsOk(x) && y.artifacts == x.artifacts && y.status == x.status && y.phaseGeneration == x.phaseGeneration
    ensures ArtifactsOk(y)
  {}

  lemma CancelledFrame(x: Job, y: Job)
    requires x.pages.Keys == y.pages.Keys
    requires forall p :: p in x.pages ==> x.pages[p].status == y.pages[p].status && x.pages[p].code == y.pages[p].code
    ensures AnyCancelled(x) <==> AnyCancelled(y)
  {}

  lemma PageStepStatus(x: Job, y: Job, p: Id)
    requires StatusOk(x) && p in x.pages && p in y.pages && y.pages == x.pages[p := y.pages[p]]
    requires y.limits == x.limits && y.status == x.status && y.ingested == x.ingested && y.phaseLease == x.phaseLease
    requires Terminal(x.status) ==> y.pages[p].status == x.pages[p].status && y.pages[p].code == x.pages[p].code && y.failed == x.failed
    requires Open(y.pages[p]) ==> Open(x.pages[p])
    requires x.succeeded <= y.succeeded
    ensures StatusOk(y)
  {
    if Terminal(x.status) {
      CancelledFrame(x, y);
    }
  }

  lemma PageOf(x: Job, p: Id)
    requires CloneOk(x) && p in x.pages
    ensures PageOk(x.pages[p], x.limits, x.status, x.ingested)
    ensures x.processed == x.succeeded + x.failed && x.inputBytes <= x.limits.maxInputBytes
    ensures Total(x.pages, IsRendering) <= x.limits.pageConcurrency
    ensures x.status == Running ==> x.ingested
  {}

  lemma ExtendPageKeeps(x: Job, p: Id, owner: Id, generation: nat, now: int)
    requires CloneOk(x)
    ensures CloneOk(ExtendPage(x, p, owner, generation, now))
  {
    if HoldsPage(x, p, owner, generation) {
      hide CloneOk;
      PageOf(x, p);
      PageStepKeeps(x, ExtendPage(x, p, owner, generation, now), p);
    }
  }

  lemma CompletePageKeeps(x: Job, p: Id, owner: Id, generation: nat, bytes: nat, now: int)
    requires CloneOk(x)
    ensures CloneOk(CompletePage(x, p, owner, generation, bytes, now))
  {
    var y := CompletePage(x, p, owner, generation, bytes, now);
    hide CloneOk;
    if y != x {
      PageOf(x, p);
      PageStepKeeps(x, y, p);
    }
  }

  lemma Parts(x: Job)
    requires CloneOk(x)
    ensures PagesOk(x) && CountersOk(x) && StatusOk(x) && ArtifactsOk(x)
  {}

  lemma FailPageKeeps(x: Job, p: Id, owner: Id, generation: nat, code: string, retryAt: int)
    requires CloneOk(x)
    ensures CloneOk(FailPage(x, p, owner, generation, code, retryAt))
  {
    var y := FailPage(x, p, owner, generation, code, retryAt);
    hide CloneOk;
    if y != x {
      PageOf(x, p);
      PageStepKeeps(x, y, p);
    }
  }

  lemma LeasePageKeeps(x: Job, p: Id, owner: Id, now: int)
    requires CloneOk(x)
    ensures CloneOk(LeasePage(x, p, owner, now))
  {
    var y := LeasePage(x, p, owner, now);
    hide CloneOk;
    if PageClaimable(x, p, now) {
      PageOf(x, p);
      PageStepKeeps(x, y, p);
    }
  }

  lemma BundleKeeps(x: Job, p: Id, bundle: BundleState, at: int)
    requires CloneOk(x) && p in x.pages && x.pages[p].status == Succeeded && Terminal(x.status) && bundle != NoBundle
    ensures CloneOk(x.(pages := x.pages[p := x.pages[p].(bundle := bundle, bundleDeleteAfter := at)]))
  {
    var y := x.(pages := x.pages[p := x.pages[p].(bundle := bundle, bundleDeleteAfter := at)]);
    hide CloneOk;
    PageOf(x, p);
    PageStepKeeps(x, y, p);
  }

  // ------------------------------------------------------------- many pages

  lemma BulkCounters(x: Job, y: Job)
    requires CountersOk(x) && y.limits == x.limits && y.ingested == x.ingested && y.discovered == x.discovered
    requires y.pages.Keys == x.pages.Keys && y == Refresh(y)
    requires forall p :: p in x.pages ==> SucceededBytes(y.pages[p]) == SucceededBytes(x.pages[p])
    requires forall p :: p in x.pages ==> IsRendering(y.pages[p]) <= IsRendering(x.pages[p])
    ensures CountersOk(y)
  {
    SameTotal(x.pages, y.pages, SucceededBytes);
    TotalCompare(y.pages, x.pages, IsRendering);
    assert |y.pages.Keys| == |x.pages.Keys|;
  }

  /** A bulk transition of open pages after which the counters are a recount. */
  lemma BulkKeeps(x: Job, y: Job)
    requires CloneOk(x) && !Terminal(x.status) && x.status != Assembling
    requires y == x.(pages := y.pages, processed := y.processed, succeeded := y.succeeded, failed := y.failed, inputBytes := y.inputBytes)
    requires y.pages.Keys == x.pages.Keys
    requires forall p :: p in x.pages ==> PageOk(y.pages[p], x.limits, x.status, x.ingested)
    requires forall p :: p in x.pages ==> SucceededBytes(y.pages[p]) == SucceededBytes(x.pages[p])
    requires forall p :: p in x.pages ==> IsRendering(y.pages[p]) <= IsRendering(x.pages[p])
    requires y == Refresh(y)
    ensures CloneOk(y)
  {
    BulkCounters(x, y);
    hide PageOk, CountersOk, Refresh, SucceededBytes, IsRendering;
  }

  lemma ReclaimPageOk(page: Page, limits: Limits, status: JobStatus, ingested: bool, now: int)
    requires PageOk(page, limits, status, ingested) && PageExpired(page, now)
    ensures PageOk(ReclaimedPage(page, limits.maxRetries, now), limits, status, ingested)
    ensures SucceededBytes(ReclaimedPage(page, limits.maxRetries, now)) == SucceededBytes(page)
    ensures IsRendering(ReclaimedPage(page, limits.maxRetries, now)) <= IsRendering(page)
    ensures !Terminal(status) && status != Assembling
  {}

  lemma ReclaimedRows(x: Job, some: set<Id>, now: int, p: Id)
    requires CloneOk(x) && p in x.pages
    ensures var b := if p in some && PageExpired(x.pages[p], now) then ReclaimedPage(x.pages[p], x.limits.maxRetries, now) else x.pages[p];
      && PageOk(b, x.limits, x.status, x.ingested)
      && SucceededBytes(b) == SucceededBytes(x.pages[p]) && IsRendering(b) <= IsRendering(x.pages[p])
    ensures PageExpired(x.pages[p], now) ==> !Terminal(x.status) && x.status != Assembling
  {
    PageOf(x, p);
    hide CloneOk, PageOk, ReclaimedPage;
    if PageExpired(x.pages[p], now) {
      ReclaimPageOk(x.pages[p], x.limits, x.status, x.ingested, now);
    }
  }

  lemma ReclaimKeeps(x: Job, some: set<Id>, now: int)
    requires CloneOk(x)
    ensures CloneOk(ReclaimPages(x, some, now))
  {
    hide CloneOk, PageOk, ReclaimedPage, PageExpired, SucceededBytes, IsRendering;
    var y := ReclaimPages(x, some, now);
    if y != x {
      forall p | p in x.pages
        ensures PageOk(y.pages[p], x.limits, x.status, x.ingested)
        ensures SucceededBytes(y.pages[p]) == SucceededBytes(x.pages[p]) && IsRendering(y.pages[p]) <= IsRendering(x.pages[p])
        ensures PageExpired(x.pages[p], now) ==> !Terminal(x.status) && x.status != Assembling
      {
        ReclaimedRows(x, some, now, p);
      }
      BulkKeeps(x, y);
    }
  }

  lemma CancelPageOk(page: Page, limits: Limits, ingested: bool)
    requires PageOk(page, limits, CancelRequested, ingested) && page.status == Queued
    ensures PageOk(page.(status := PageCancelled, code := USER_CANCELLED), limits, CancelRequested, ingested)
  {}

  lemma CancelQueuedPages(x: Job)
    requires x.status == CancelRequested
    ensures var y := CancelQueued(x);
      && y == x.(pages := y.pages) && y.pages.Keys == x.pages.Keys
      && forall p :: p in x.pages ==>
           SucceededBytes(y.pages[p]) == SucceededBytes(x.pages[p])
           && IsSucceeded(y.pages[p]) == IsSucceeded(x.pages[p]) && IsFailed(y.pages[p]) == IsFailed(x.pages[p])
  {}

  lemma CancelQueuedTotals(x: Job)
    requires CountersOk(x) && x.status == CancelRequested
    ensures CancelQueued(x) == Refresh(CancelQueued(x))
  {
    var y := CancelQueued(x);
    CancelQueuedPages(x);
    hide CancelQueued, IsSucceeded, IsFailed, SucceededBytes;
    SameTotal(x.pages, y.pages, SucceededBytes);
    SameTotal(x.pages, y.pages, IsSucceeded);
    SameTotal(x.pages, y.pages, IsFailed);
  }

  lemma CancelQueuedKeeps(x: Job)
    requires CloneOk(x)
    ensures CloneOk(CancelQueued(x))
  {
    var y := CancelQueued(x);
    if x.status == CancelRequested {
      forall p | p in x.pages ensures PageOk(y.pages[p], x.limits, x.status, x.ingested) {
        assert PageOk(x.pages[p], x.limits, x.status, x.ingested);
        hide PageOk;
        if x.pages[p].status == Queued {
          CancelPageOk(x.pages[p], x.limits, x.ingested);
        }
      }
      CancelQueuedTotals(x);
      hide CloneOk, PageOk, Refresh;
      BulkKeeps(x, y);
    }
  }

  /** Before ingestion has finished nothing can have succeeded. */
  lemma NothingYet(x: Job)
    requires CloneOk(x) && !x.ingested
    ensures x.succeeded == 0
  {
    forall p | p in x.pages ensures IsSucceeded(x.pages[p]) == 0 {
      assert PageOk(x.pages[p], x.limits, x.status, x.ingested);
    }
    NoneWithWeight(x.pages, IsSucceeded);
  }

  lemma SettleCancelKeeps(x: Job, skipped: bool, now: int)
    requires CloneOk(x)
    ensures CloneOk(SettleCancel(x, skipped, now))
  {
    var y := SettleCancel(x, skipped, now);
    if y != x {
      assert Refresh(x) == x;
      if !x.ingested {
        NothingYet(x);
      }
      forall p | p in x.pages ensures PageOk(y.pages[p], y.limits, y.status, y.ingested) {
        assert PageOk(x.pages[p], x.limits, x.status, x.ingested);
      }
      hide PageOk, Refresh;
    }
  }

  lemma StatusKeeps(x: Job, y: Job)
    requires CloneOk(x) && !Terminal(x.status)
    requires y == x.(status := CancelRequested, phaseLease := None, terminalCode := y.terminalCode)
    ensures CloneOk(y)
  {
    forall p | p in x.pages ensures PageOk(y.pages[p], y.limits, y.status, y.ingested) {
      assert PageOk(x.pages[p], x.limits, x.status, x.ingested);
    }
    hide PageOk;
  }

  lemma ReconcileKeeps(x: Job, skipped: bool, now: int)
    requires CloneOk(x)
    ensures CloneOk(Reconcile(x, skipped, now))
  {
    hide CloneOk, CancelQueued, SettleCancel;
    if PastDeadline(x, now) != x {
      StatusKeeps(x, PastDeadline(x, now));
    }
    CancelQueuedKeeps(PastDeadline(x, now));
    SettleCancelKeeps(CancelQueued(PastDeadline(x, now)), skipped, now);
  }

  // ------------------------------------------------------------- ingestion

  lemma InsertKeeps(pages: map<Id, Page>, t: Target, now: int, limits: Limits, status: JobStatus)
    requires forall p :: p in pages ==> PageOk(pages[p], limits, status, false)
    requires 1 <= limits.maxRetries
    ensures var r := InsertTarget(pages, t, now);
      && (forall p :: p in r ==> PageOk(r[p], limits, status, false))
      && Total(r, IsSucceeded) == Total(pages, IsSucceeded) && Total(r, IsFailed) == Total(pages, IsFailed)
      && Total(r, SucceededBytes) == Total(pages, SucceededBytes) && Total(r, IsRendering) == Total(pages, IsRendering)
  {
    if !Conflicts(pages, t) {
      TotalUpdate(pages, IsSucceeded, t.page, NewPage(t, now));
      TotalUpdate(pages, IsFailed, t.page, NewPage(t, now));
      TotalUpdate(pages, SucceededBytes, t.page, NewPage(t, now));
      TotalUpdate(pages, IsRendering, t.page, NewPage(t, now));
    }
  }

  lemma {:induction false} InsertAllKeeps(pages: map<Id, Page>, targets: seq<Target>, now: int, limits: Limits, status: JobStatus)
    requires forall p :: p in pages ==> PageOk(pages[p], limits, status, false)
    requires 1 <= limits.maxRetries
    ensures var r := InsertTargets(pages, targets, now);
      && (forall p :: p in r ==> PageOk(r[p], limits, status, false))
      && Total(r, IsSucceeded) == Total(pages, IsSucceeded) && Total(r, IsFailed) == Total(pages, IsFailed)
      && Total(r, SucceededBytes) == Total(pages, SucceededBytes) && Total(r, IsRendering) == Total(pages, IsRendering)
    decreases targets
  {
    if targets != [] {
      InsertKeeps(pages, targets[0], now, limits, status);
      hide PageOk, InsertTarget;
      InsertAllKeeps(InsertTarget(pages, targets[0], now), targets[1..], now, limits, status);
    }
  }

  /** While targets are added the job is otherwise untouched. */
  lemma TargetsKeep(x: Job, pages: map<Id, Page>)
    requires CloneOk(x) && x.status == Ingesting && |pages| <= x.limits.maxPages
    requires forall p :: p in pages ==> PageOk(pages[p], x.limits, x.status, false)
    requires Total(pages, IsSucceeded) == Total(x.pages, IsSucceeded) && Total(pages, IsFailed) == Total(x.pages, IsFailed)
    requires Total(pages, SucceededBytes) == Total(x.pages, SucceededBytes) && Total(pages, IsRendering) == Total(x.pages, IsRendering)
    ensures CloneOk(x.(pages := pages))
  {
    hide PageOk, Total;
  }

  lemma IngestingPages(x: Job)
    requires CloneOk(x) && x.status == Ingesting
    ensures 1 <= x.limits.maxRetries && forall p :: p in x.pages ==> PageOk(x.pages[p], x.limits, x.status, false)
  {
    hide PageOk, Total;
  }

  lemma AddTargetsKeeps(x: Job, owner: Id, generation: nat, targets: seq<Target>, now: int)
    requires CloneOk(x)
    ensures CloneOk(AddTargets(x, owner, generation, targets, now))
  {
    hide CloneOk, InsertTargets, PageOk;
    if x.status == Ingesting {
      IngestingPages(x);
      InsertAllKeeps(x.pages, targets, now, x.limits, x.status);
      var pages := InsertTargets(x.pages, targets, now);
      if |pages| <= x.limits.maxPages {
        TargetsKeep(x, pages);
      }
    }
  }

  lemma FinishIngestionKeeps(x: Job, owner: Id, generation: nat, now: int)
    requires CloneOk(x)
    ensures CloneOk(FinishIngestion(x, owner, generation, now))
  {
    var y := FinishIngestion(x, owner, generation, now);
    if y != x {
      forall p | p in x.pages ensures PageOk(y.pages[p], y.limits, y.status, y.ingested) {
        assert PageOk(x.pages[p], x.limits, x.status, x.ingested);
      }
      hide PageOk;
    }
  }

  /** Steps on the phase lease alone. */
  lemma PhaseKeeps(x: Job, owner: Id, generation: nat, now: int)
    requires CloneOk(x)
    ensures CloneOk(ClaimIngestion(x, owner, now)) && CloneOk(ExtendPhase(x, owner, generation, now))
  {
    hide PageOk, Total;
  }

  // ---------------------------------------------------- assembly, collection

  lemma EndKeeps(x: Job)
    requires CloneOk(x)
    ensures CloneOk(FinalizeEmpty(x))
  {
    var y := FinalizeEmpty(x);
    if y != x {
      forall p | p in x.pages ensures PageOk(y.pages[p], y.limits, y.status, y.ingested) {
        assert PageOk(x.pages[p], x.limits, x.status, x.ingested);
      }
      hide PageOk;
    }
  }

  lemma ClaimAssemblyKeeps(x: Job, owner: Id, now: int)
    requires CloneOk(x)
    ensures CloneOk(ClaimAssembly(x, owner, now))
  {
    var y := ClaimAssembly(x, owner, now);
    if y != x {
      forall p | p in x.pages ensures PageOk(y.pages[p], y.limits, y.status, y.ingested) {
        assert PageOk(x.pages[p], x.limits, x.status, x.ingested);
      }
      hide PageOk;
    }
  }

  /** Other rows of the job than its artifacts do not change. */
  lemma ArtifactsKeep(x: Job, y: Job)
    requires CloneOk(x) && y == x.(artifacts := y.artifacts) && ArtifactsOk(y)
    ensures CloneOk(y)
  {
    hide PageOk, Total, ArtifactsOk;
  }

  lemma StagedRowsOk(x: Job, owner: Id, generation: nat, files: map<Part, nat>, now: int)
    requires ArtifactsOk(x)
    ensures ArtifactsOk(StageArtifacts(x, owner, generation, files, now))
  {
    hide Total, StageMatches;
  }

  lemma StageKeeps(x: Job, owner: Id, generation: nat, files: map<Part, nat>, now: int)
    requires CloneOk(x)
    ensures CloneOk(StageArtifacts(x, owner, generation, files, now))
  {
    StagedRowsOk(x, owner, generation, files, now);
    hide CloneOk, ArtifactsOk, MayStage, StagedRows, StageMatches;
    ArtifactsKeep(x, StageArtifacts(x, owner, generation, files, now)) by { Parts(x); }
  }

  lemma PublishedPages(x: Job, y: Job)
    requires CloneOk(x) && x.status == Assembling && (y.status == Published || y.status == Partial)
    requires y.pages == x.pages && y.limits == x.limits && y.ingested == x.ingested
    ensures PagesOk(y) && x.ingested && NoOpenPages(y) && x.failed >= 0
  {
    forall p | p in x.pages ensures PageOk(y.pages[p], y.limits, y.status, y.ingested) {
      assert PageOk(x.pages[p], x.limits, x.status, x.ingested);
    }
    TallyNonNegative(x.pages, IsFailed, 0);
  }

  lemma PublishKeeps(x: Job, owner: Id, generation: nat, files: map<Part, nat>, now: int)
    requires CloneOk(x)
    ensures CloneOk(PublishArtifacts(x, owner, generation, files, now))
  {
    var y := PublishArtifacts(x, owner, generation, files, now);
    if y != x {
      CancelledFrame(x, y);
      PublishedPages(x, y);
      hide PagesOk, PageOk, Total, AnyCancelled, NoOpenPages;
    }
  }

  lemma RetryPhaseKeeps(x: Job, owner: Id, generation: nat, phase: JobStatus, attempt: nat, code: string, retryAt: int, now: int)
    requires CloneOk(x)
    ensures CloneOk(RetryPhase(x, owner, generation, phase, attempt, code, retryAt, now))
  {
    var y := RetryPhase(x, owner, generation, phase, attempt, code, retryAt, now);
    if y != x {
      forall p | p in x.pages ensures PageOk(y.pages[p], y.limits, y.status, y.ingested) {
        assert PageOk(x.pages[p], x.limits, x.status, x.ingested);
      }
      hide PageOk, Total;
    }
  }

  lemma CollectedRowsOk(x: Job, k: ArtifactKey, now: int)
    requires ArtifactsOk(x)
    ensures ArtifactsOk(ClaimArtifact(x, k, now)) && ArtifactsOk(RetryArtifact(x, k, now))
  {}

  lemma CollectKeeps(x: Job, k: ArtifactKey, now: int)
    requires CloneOk(x)
    ensures CloneOk(ClaimArtifact(x, k, now)) && CloneOk(RetryArtifact(x, k, now))
  {
    Parts(x);
    hide CloneOk, ArtifactsOk;
    CollectedRowsOk(x, k, now);
    ArtifactsKeep(x, ClaimArtifact(x, k, now));
    ArtifactsKeep(x, RetryArtifact(x, k, now));
  }

  lemma CompleteArtifactKeeps(x: Job, k: ArtifactKey)
    requires CloneOk(x)
    ensures CloneOk(CompleteArtifact(x, k))
  {
    var y := CompleteArtifact(x, k);
    forall p | p in x.pages ensures PageOk(y.pages[p], y.limits, y.status, y.ingested) {
      assert PageOk(x.pages[p], x.limits, x.status, x.ingested);
    }
    CancelledFrame(x, y);
    hide PageOk, Total, AnyCancelled;
  }

  lemma BundleOf(x: Job, p: Id)
    requires CloneOk(x) && p in x.pages
    ensures x.pages[p].bundle == BundlePending ==> x.pages[p].status == Succeeded && Terminal(x.status)
  {
    hide CountersOk, StatusOk, ArtifactsOk;
    assert PageOk(x.pages[p], x.limits, x.status, x.ingested);
  }

  /** Only a bundle of a terminal job is ever claimed or deleted. */
  lemma BundleStepKeeps(x: Job, step: Step, now: int)
    requires CloneOk(x) && (step.ClaimBundleStep? || step.CompleteBundleStep? || step.RetryBundleStep?)
    ensures CloneOk(Apply(x, step, now))
  {
    var p := step.page;
    hide CloneOk;
    if p in x.pages {
      BundleOf(x, p);
      match step
      case ClaimBundleStep(_) =>
        if BundleClaimable(x, p, now) {
          BundleKeeps(x, p, BundlePending, now + CLAIM_HOLD);
        }
      case CompleteBundleStep(_) =>
        if x.pages[p].bundle == BundlePending {
          BundleKeeps(x, p, BundleDeleted, now);
        }
      case RetryBundleStep(_) =>
        if x.pages[p].bundle == BundlePending {
          BundleKeeps(x, p, BundlePending, now + RETRY_HOLD);
        }
    }
  }

  lemma StepKeeps(x: Job, step: Step, now: int)
    requires CloneOk(x)
    ensures CloneOk(Apply(x, step, now))
  {
    hide CloneOk, ClaimIngestion, ExtendPhase, AddTargets, FinishIngestion, ReclaimPages, LeasePage, ExtendPage, CompletePage,
         FailPage, FinalizeEmpty, ClaimAssembly, StageArtifacts, PublishArtifacts, RetryPhase, RequestCancel, Reconcile,
         ClaimArtifact, CompleteArtifact, RetryArtifact, ClaimBundle, CompleteBundle, RetryBundle;
    match step
    case ClaimIngestionStep(owner) => PhaseKeeps(x, owner, 0, now);
    case ExtendPhaseStep(owner, generation) => PhaseKeeps(x, owner, generation, now);
    case AddTargetsStep(owner, generation, targets) => AddTargetsKeeps(x, owner, generation, targets, now);
    case FinishIngestionStep(owner, generation) => FinishIngestionKeeps(x, owner, generation, now);
    case ClaimPageStep(some, p, owner) =>
      ReclaimKeeps(x, some, now);
      LeasePageKeeps(ReclaimPages(x, some, now), p, owner, now);
    case ExtendPageStep(p, owner, generation) => ExtendPageKeeps(x, p, owner, generation, now);
    case CompletePageStep(p, owner, generation, bytes) => CompletePageKeeps(x, p, owner, generation, bytes, now);
    case FailPageStep(p, owner, generation, code, retryAt) => FailPageKeeps(x, p, owner, generation, code, retryAt);
    case FinalizeEmptyStep => EndKeeps(x);
    case ClaimAssemblyStep(owner) => ClaimAssemblyKeeps(x, owner, now);
    case StageStep(owner, generation, files) => StageKeeps(x, owner, generation, files, now);
    case PublishStep(owner, generation, files) => PublishKeeps(x, owner, generation, files, now);
    case RetryPhaseStep(owner, generation, phase, attempt, code, retryAt) =>
      RetryPhaseKeeps(x, owner, generation, phase, attempt, code, retryAt, now);
    case CancelStep => RequestCancelKeeps(x);
    case ReconcileStep(skipped) => ReconcileKeeps(x, skipped, now);
    case ClaimArtifactStep(k) => CollectKeeps(x, k, now);
    case CompleteArtifactStep(k) => CompleteArtifactKeeps(x, k);
    case RetryArtifactStep(k) => CollectKeeps(x, k, now);
    case _ => BundleStepKeeps(x, step, now);
  }

  lemma RequestCancelKeeps(x: Job)
    requires CloneOk(x)
    ensures CloneOk(RequestCancel(x))
  {
    hide CloneOk;
    if !Terminal(x.status) {
      StatusKeeps(x, RequestCancel(x));
    }
  }

  lemma NewJobOk(limits: Limits, now: int)
    requires ValidLimits(limits)
    ensures CloneOk(NewJob(limits, now))
  {}

  lemma {:induction false} CloneRunOk(run: seq<Job>)
    requires IsCloneRun(run)
    ensures CloneOk(Latest(run))
  {
    hide CloneOk, Apply;
    if |run| == 1 {
      var limits, start :| ValidLimits(limits) && run[0] == NewJob(limits, start);
      NewJobOk(limits, start);
    } else {
      CloneRunPrefix(run, |run| - 1);
      CloneRunOk(run[..|run| - 1]);
      assert NextAt(run, |run| - 1);
      var step, now :| Latest(run) == Apply(run[|run| - 2], step, now);
      StepKeeps(run[|run| - 2], step, now);
    }
  }

  lemma CloneRunPrefix(run: seq<Job>, n: nat)
    requires IsCloneRun(run) && 0 < n <= |run|
    ensures IsCloneRun(run[..n])
  {
    hide Next;
    var init := run[..n];
    assert init[0] == run[0];
    forall i | 0 < i < n ensures NextAt(init, i) {
      assert NextAt(run, i);
    }
  }

  lemma CloneRunOkAt(run: seq<Job>, i: nat)
    requires IsCloneRun(run) && i < |run|
    ensures CloneOk(run[i])
  {
    hide CloneOk, NextAt, ValidLimits;
    CloneRunPrefix(run, i + 1);
    CloneRunOk(run[..i + 1]);
  }
}
