/** How a scan ends, told by its rows: which status, which code, and why a page failed without a result. */
module ScanEndings {
  import opened Common
  import opened Frontier
  import opened Counting
  import opened FrontierInvariant
  import opened EventLane
  import opened PageOutcomes

  predicate CancelledScan(x: Execution) {
    x.status == CancelRequested || x.status == Cancelled
  }

  /** A page fails without a result after its third lease, or by a code that the scan bears. */
  ghost predicate PagesExplained(pages: map<Id, Page>, cancelled: bool, code: string) {
    forall p :: p in pages ==>
      && (pages[p].status == PageFailed && pages[p].accepted == None ==> pages[p].attempts >= 3 || code != "")
      && (pages[p].status == PageCancelled ==> cancelled)
  }

  predicate CodeOk(x: Execution) {
    && (x.terminalCode == "" || x.terminalCode == "SCAN_DEADLINE_EXCEEDED" || x.terminalCode == "USER_CANCELLED")
    && (x.terminalCode == "USER_CANCELLED" <==> CancelledScan(x))
    && (x.terminalCode == "SCAN_DEADLINE_EXCEEDED" ==> x.counts.failed > 0)
  }

  ghost predicate Explained(x: Execution) {
    CodeOk(x) && PagesExplained(x.pages, CancelledScan(x), x.terminalCode)
  }

  lemma ExplainedFrame(x: Execution, y: Execution)
    requires Explained(x) && y.pages == x.pages && y.status == x.status && y.terminalCode == x.terminalCode && y.counts.failed == x.counts.failed
    ensures Explained(y)
  {}

  lemma ClaimExplains(x: Execution, p: Id, owner: Id, until: int)
    requires Explained(x) && p in x.pages && !CancelledScan(x)
    ensures Explained(ClaimRow(x, p, owner, until))
  {}

  lemma RequeueExplains(x: Execution, p: Id, retryAt: int)
    requires Explained(x) && p in x.pages
    ensures Explained(RequeueRow(x, p, retryAt))
  {}

  lemma StageExplains(rules: UrlRules, x: Execution, p: Id, result: PageResult, ids: seq<Id>, now: int)
    requires Explained(x) && p in x.pages && |result.links| <= |ids| && FreshIds(x.pages, ids)
    ensures Explained(StageRow(rules, x, p, result, ids, now))
  {
    StageRows(rules, x, p, result, ids, now);
    var y := StageRow(rules, x, p, result, ids, now);
    assert y.status == x.status && y.terminalCode == x.terminalCode && y.counts.failed == x.counts.failed by { hide StagedRows, InsertPages, NewUrls; }
    hide StageRow, NewUrls, CodeOk, StagedRows, FreshIds;
    StagedExplained(x, y, p, result, NewUrls(rules, x, p, result.links), ids, now);
    assert CodeOk(y) && CancelledScan(y) == CancelledScan(x) by { CodeFrame(x, y); }
  }

  lemma CodeFrame(x: Execution, y: Execution)
    requires CodeOk(x) && y.status == x.status && y.terminalCode == x.terminalCode && y.counts.failed == x.counts.failed
    ensures CodeOk(y) && CancelledScan(y) == CancelledScan(x)
  {}

  lemma StagedExplained(x: Execution, y: Execution, p: Id, result: PageResult, urls: seq<string>, ids: seq<Id>, now: int)
    requires StagedRows(x, y, p, result, urls, ids, now) && PagesExplained(x.pages, CancelledScan(x), x.terminalCode)
    ensures PagesExplained(y.pages, CancelledScan(x), x.terminalCode)
  {
    hide CancelledScan;
    forall q | q in y.pages && q !in x.pages ensures y.pages[q].status == PageQueued {
      var i :| 0 <= i < |urls| && ids[i] == q;
    }
  }

  lemma AnalyticsExplains(x: Execution, p: Id)
    requires Explained(x) && x.counts.failed >= 0 && !Terminal(x.status)
    requires p in x.batches && p in x.pages && x.pages[p].accepted.Some? && x.pages[p].pending.Some? && x.pages[p].pending.value != PageCancelled
    ensures Explained(AnalyticsRow(x, p))
  {}

  lemma CancelExplains(x: Execution, version: int)
    requires Explained(x)
    ensures Explained(CancelRow(x, version))
  {
    hide WithStatus;
  }

  lemma DeliveriesExplain(x: Execution, now: int)
    requires Explained(x)
    ensures Explained(ReclaimDeliveries(x, now))
  {
    ExplainedFrame(x, ReclaimDeliveries(x, now));
  }

  lemma LeasesExplain(x: Execution, now: int)
    requires Explained(x)
    ensures Explained(ReclaimLeases(x, now))
  {
    hide ExpiredSet, SpentSet;
  }

  lemma DeadlineExplains(x: Execution, now: int)
    requires Explained(x) && x.counts.failed >= 0
    ensures Explained(ReclaimDeadline(x, now))
  {
    hide WithStatus;
  }

  lemma TerminalizeExplains(x: Execution)
    requires Explained(x)
    ensures Explained(Terminalize(x))
  {}

  lemma ReclaimExplains(x: Execution, skipLeases: bool, skipDeadline: bool, now: int)
    requires Explained(x) && x.counts.failed >= 0
    ensures Explained(Reclaim(x, skipLeases, skipDeadline, now))
  {
    var a := ReclaimDeliveries(x, now);
    var b := if skipLeases then a else ReclaimLeases(a, now);
    var c := if skipDeadline then b else ReclaimDeadline(b, now);
    DeliveriesExplain(x, now);
    LeasesExplain(a, now);
    assert b.counts.failed >= 0 by { hide ExpiredSet, SpentSet, Explained; }
    hide Explained, ReclaimDeliveries, ReclaimLeases, ReclaimDeadline, Terminalize;
    DeadlineExplains(b, now);
    TerminalizeExplains(c);
    PublishedRows(Terminalize(c), now);
    PublishExplains(Terminalize(c), now);
    hide PublishProgress;
  }

  lemma PublishExplains(y: Execution, now: int)
    requires Explained(y)
    ensures Explained(PublishProgress(y, now))
  {
    PublishedRows(y, now);
    hide PublishProgress;
    ExplainedFrame(y, PublishProgress(y, now));
  }

  lemma QuietExplains(rules: UrlRules, x: Execution, step: Step, now: int)
    requires Explained(x)
    requires step.ClaimBatchStep? || step.RetryBatchStep? || step.ClaimEventStep? || step.CompleteEventStep? || step.RetryEventStep?
    ensures Explained(Apply(rules, x, step, now))
  {
    ExplainedFrame(x, Apply(rules, x, step, now));
  }

  lemma ExtendExplains(x: Execution, p: Id, until: int)
    requires Explained(x) && p in x.pages && x.pages[p].lease.Some?
    ensures Explained(ExtendLease(x, p, until))
  {}

  lemma PersistingPage(rules: UrlRules, x: Execution, p: Id)
    requires FrontierOk(rules, x) && p in x.pages && x.pages[p].status == PagePersisting
    ensures x.pages[p].accepted.Some? && x.pages[p].pending.Some? && x.pages[p].pending.value != PageCancelled && !Terminal(x.status)
  {
    hide TreeOk, Settles;
    CountWitness(x.pages, p);
    assert PageOk(x.pages[p], x.host);
  }

  lemma FailedCount(rules: UrlRules, x: Execution)
    requires FrontierOk(rules, x)
    ensures x.counts.failed >= 0
  {
    hide TreeOk, PagesOk, StatusOk;
  }

  lemma StepExplains(rules: UrlRules, x: Execution, step: Step, now: int)
    requires Valid(rules, x) && Explained(x)
    ensures Explained(Apply(rules, x, step, now))
  {
    hide Valid, FrontierOk, OutboxOk, Explained, PublishProgress, Reclaim;
    ValidParts(rules, x);
    FailedCount(rules, x);
    if Enabled(x, step, now) {
      match step
      case ClaimStep(p, owner, until) =>
        ClaimExplains(x, p, owner, until);
        PublishExplains(ClaimRow(x, p, owner, until), now);
      case ExtendStep(p, _, _, until) => ExtendExplains(x, p, until);
      case CommitStep(p, _, _, result, ids, retryAt) =>
        RequeueExplains(x, p, retryAt);
        StageExplains(rules, x, p, result, ids, now);
        PublishExplains(if ShouldRetryPage(result, x.pages[p].attempts) then RequeueRow(x, p, retryAt) else StageRow(rules, x, p, result, ids, now), now);
      case AnalyticsStep(p, _) =>
        PersistingPage(rules, x, p);
        AnalyticsExplains(x, p);
        PublishExplains(AnalyticsRow(x, p), now);
      case CancelStep(version) =>
        CancelExplains(x, version);
        PublishExplains(CancelRow(x, version), now);
      case ReclaimStep(skipLeases, skipDeadline) => ReclaimExplains(x, skipLeases, skipDeadline, now);
      case _ => QuietExplains(rules, x, step, now);
    }
  }

  lemma {:induction false} RunExplained(rules: UrlRules, command: ScanCommand, run: seq<Execution>)
    requires IsScanRun(rules, command, run)
    ensures Explained(Last(run))
  {
    hide Valid, Explained, Apply, ValidCommand, NewExecution;
    if |run| > 1 {
      var init := run[..|run| - 1];
      RunStep(rules, run);
      RunExplained(rules, command, init);
      ScanRunValid(rules, command, init);
      var step, now :| Last(run) == Apply(rules, Last(init), step, now);
      StepExplains(rules, Last(init), step, now);
    } else {
      NewExplained(command, run[0]);
    }
  }

  lemma NewExplained(command: ScanCommand, x: Execution)
    requires exists url, seed, start :: x == NewExecution(command, url, seed, start)
    ensures Explained(x)
  {}

  /** A leased page whose time is up waits for its next attempt, due at once, or has failed after its third; others keep their row. */
  lemma LapsedPage(rules: UrlRules, x: Execution, p: Id, now: int)
    requires p in x.pages
    ensures var y, page := Apply(rules, x, ReclaimStep(false, true), now), x.pages[p];
      && y.pages.Keys == x.pages.Keys
      && y.pages[p] == if page.status == PageLeased && page.lease.Some? && page.lease.value.expiresAt <= now
                       then page.(status := if page.attempts < 3 then PageQueued else PageFailed, lease := None, availableAt := now) else page
  {
    hide ReclaimDeliveries, ReclaimLeases, PublishProgress;
    var a := ReclaimDeliveries(x, now);
    var b := ReclaimLeases(a, now);
    LapsedRow(x, p, now);
    PublishedRows(Terminalize(b), now);
    assert Apply(rules, x, ReclaimStep(false, true), now).pages == b.pages;
  }

  lemma LapsedRow(x: Execution, p: Id, now: int)
    requires p in x.pages
    ensures var y, page := ReclaimLeases(ReclaimDeliveries(x, now), now), x.pages[p];
      && y.pages.Keys == x.pages.Keys
      && y.pages[p] == if page.status == PageLeased && page.lease.Some? && page.lease.value.expiresAt <= now
                       then page.(status := if page.attempts < 3 then PageQueued else PageFailed, lease := None, availableAt := now) else page
  {
    var a := ReclaimDeliveries(x, now);
    assert a.pages == x.pages;
    assert PageExpired(x.pages[p], now) ==> p in ExpiredSet(a, now);
    hide ReclaimDeliveries, SpentSet;
  }

  // ------------------------------------------------------------ what follows

  /** A page that failed without a result had three leases run out, or was overtaken by the deadline of its scan. */
  lemma FailedWithoutResult(rules: UrlRules, command: ScanCommand, run: seq<Execution>, p: Id)
    requires IsScanRun(rules, command, run)
    requires p in Last(run).pages && Last(run).pages[p].status == PageFailed && Last(run).pages[p].accepted == None
    ensures Last(run).pages[p].attempts == 3 || Last(run).terminalCode == "SCAN_DEADLINE_EXCEEDED" || Last(run).terminalCode == "USER_CANCELLED"
  {
    hide Valid, ValidCommand, NewExecution, StepAt, Settles, TerminalOutcome;
    RunExplained(rules, command, run);
    PageInOrder(rules, command, run, p);
  }

  ghost predicate AllPages(x: Execution, status: PageStatus) {
    forall p :: p in x.pages ==> x.pages[p].status == status
  }

  ghost predicate NoPage(x: Execution, status: PageStatus) {
    forall p :: p in x.pages ==> x.pages[p].status != status
  }

  lemma CountZero(x: Execution, status: PageStatus)
    ensures Count(x.pages, status) == 0 <==> NoPage(x, status)
  {
    assert Count(x.pages, status) == |WithStatus(x.pages, status)|;
    if WithStatus(x.pages, status) == {} {
      assert forall p :: p in x.pages && x.pages[p].status == status ==> p in WithStatus(x.pages, status);
    }
  }

  /**
   * The status of an ended scan is read off its pages: CANCELLED exactly if it
   * was cancelled; otherwise COMPLETED exactly if every page succeeded, FAILED
   * exactly if none did. Its code is empty if it completed.
   */
  lemma EndTold(rules: UrlRules, command: ScanCommand, run: seq<Execution>)
    requires IsScanRun(rules, command, run) && Terminal(Last(run).status)
    ensures var x := Last(run);
      && (x.status == Cancelled <==> x.terminalCode == "USER_CANCELLED")
      && (x.status == Completed ==> x.terminalCode == "")
      && (x.status != Cancelled ==>
            && (x.status == Completed <==> AllPages(x, PageSucceeded))
            && (x.status == Failed <==> NoPage(x, PageSucceeded)))
  {
    var x := Last(run);
    hide ValidCommand, NewExecution, StepAt, PagesOk, TreeOk, OutboxOk, Count, AllPages, NoPage;
    ScanRunValid(rules, command, run);
    RunExplained(rules, command, run);
    forall status ensures Count(x.pages, status) == 0 <==> NoPage(x, status) { CountZero(x, status); }
    SomePage(rules, x);
    EveryStatus(x);
  }

  lemma SomePage(rules: UrlRules, x: Execution)
    requires FrontierOk(rules, x)
    ensures AllPages(x, PageSucceeded) ==> !NoPage(x, PageSucceeded)
  {
    assert x.seed in x.pages;
  }

  lemma EveryStatus(x: Execution)
    ensures AllPages(x, PageSucceeded) <==>
      NoPage(x, PageQueued) && NoPage(x, PageLeased) && NoPage(x, PagePersisting) && NoPage(x, PageFailed) && NoPage(x, PageSkipped) && NoPage(x, PageCancelled)
  {}
}
