/** A crawl does a bounded amount of work, whatever the order of its transactions. */
module Termination {
  import opened Common
  import opened Frontier
  import opened Counting
  import opened FrontierInvariant
  import opened EventLane

  /** Steps a page can still take: two per attempt left, then staging and completion. */
  function Weight(page: Page): int {
    match page.status
    case PageQueued => 2 * (MAX_ATTEMPTS - page.attempts) + 2
    case PageLeased => 2 * (MAX_ATTEMPTS - page.attempts) + 3
    case PagePersisting => 1
    case _ => 0
  }

  /** A page that is still to be discovered counts as a freshly queued one. */
  ghost function Rank(x: Execution): int {
    Total(x.pages, Weight) + 8 * (x.maxPages - |x.pages|)
  }

  /** Some page row was added or changed its status. */
  ghost predicate PagesAdvance(x: Execution, y: Execution) {
    exists p :: p in y.pages && (p !in x.pages || y.pages[p].status != x.pages[p].status)
  }

  ghost predicate Falls(x: Execution, y: Execution) {
    Rank(y) <= Rank(x) && (PagesAdvance(x, y) <==> Rank(y) < Rank(x))
  }

  lemma WeightBounds(page: Page, host: string)
    requires PageOk(page, host)
    ensures 0 <= Weight(page) <= 8
  {}

  lemma RankBounds(rules: UrlRules, x: Execution)
    requires Valid(rules, x)
    ensures 0 <= Rank(x) <= 8 * x.maxPages
  {
    forall p | p in x.pages ensures 0 <= Weight(x.pages[p]) <= 8 {
      WeightBounds(x.pages[p], x.host);
    }
    TotalBound(x.pages, Weight, 8);
  }

  // -------------------------------------------------------- one row at a time

  lemma ReplaceRank(x: Execution, y: Execution, p: Id)
    requires p in x.pages && p in y.pages && y.pages == x.pages[p := y.pages[p]] && y.maxPages == x.maxPages
    ensures Rank(y) == Rank(x) + Weight(y.pages[p]) - Weight(x.pages[p])
    ensures PagesAdvance(x, y) <==> y.pages[p].status != x.pages[p].status
  {
    TotalUpdate(x.pages, Weight, p, y.pages[p]);
    assert y.pages.Keys == x.pages.Keys;
  }

  lemma {:induction false} InsertRank(pages: map<Id, Page>, parent: Id, page: Page, urls: seq<string>, ids: seq<Id>, now: int)
    requires |urls| <= |ids| && FreshIds(pages, ids)
    ensures Total(InsertPages(pages, parent, page, urls, ids, now), Weight) == Total(pages, Weight) + 8 * |urls|
  {
    if urls != [] {
      var last := |urls| - 1;
      var before := InsertPages(pages, parent, page, urls[..last], ids, now);
      InsertRank(pages, parent, page, urls[..last], ids, now);
      assert ids[last] !in before;
      TotalUpdate(before, Weight, ids[last], DiscoveredPage(parent, page, urls[last], now));
    }
  }

  lemma StageRank(rules: UrlRules, x: Execution, p: Id, result: PageResult, ids: seq<Id>, now: int)
    requires p in x.pages && x.pages[p].status == PageLeased && x.pages[p].attempts <= MAX_ATTEMPTS
    requires FreshIds(x.pages, ids) && |result.links| <= |ids|
    ensures var y := StageRow(rules, x, p, result, ids, now); Rank(y) < Rank(x) && PagesAdvance(x, y)
  {
    var y := StageRow(rules, x, p, result, ids, now);
    var urls := NewUrls(rules, x, p, result.links);
    var staged := StagedPage(x.pages[p], result);
    TotalUpdate(x.pages, Weight, p, staged);
    StageCount(x.pages, p, result, urls, ids, now, PageQueued);
    InsertRank(x.pages[p := staged], p, x.pages[p], urls, ids, now);
    StageRows(rules, x, p, result, ids, now);
    assert y.pages[p].status == PagePersisting;
  }

  // -------------------------------------------------------- many rows at once

  /** A bulk update in which every row that changes status loses weight. */
  lemma BulkRank(x: Execution, y: Execution)
    requires y.pages.Keys == x.pages.Keys && y.maxPages == x.maxPages
    requires forall p :: p in x.pages ==>
      if y.pages[p].status != x.pages[p].status then Weight(y.pages[p]) < Weight(x.pages[p])
      else Weight(y.pages[p]) == Weight(x.pages[p])
    ensures Rank(y) <= Rank(x)
    ensures PagesAdvance(x, y) <==> Rank(y) < Rank(x)
  {
    assert |y.pages.Keys| == |x.pages.Keys|;
    TotalCompare(y.pages, x.pages, Weight);
    if !PagesAdvance(x, y) {
      TotalCompare(x.pages, y.pages, Weight);
    }
  }

  lemma CancelRank(x: Execution, version: int)
    requires PagesOk(x)
    ensures Falls(x, CancelRow(x, version))
  {
    var y := CancelRow(x, version);
    forall p | p in x.pages
      ensures if y.pages[p].status != x.pages[p].status then Weight(y.pages[p]) < Weight(x.pages[p])
              else Weight(y.pages[p]) == Weight(x.pages[p])
    {
      assert PageOk(x.pages[p], x.host) && y.pages[p] == CancelledPage(x.pages[p]);
    }
    BulkRank(x, y);
  }

  /** What reclamation can do to a row: expire it, fail it for the deadline, or both. */
  ghost predicate ReclaimedPage(a: Page, b: Page, now: int) {
    || b == a
    || (PageExpired(a, now) && b == ExpiredPage(a, now))
    || b == OverduePage(a)
    || (PageExpired(a, now) && b == OverduePage(ExpiredPage(a, now)))
  }

  lemma ReclaimLeasePages(x: Execution, now: int)
    ensures var y := ReclaimLeases(x, now);
      && y.pages.Keys == x.pages.Keys && y.maxPages == x.maxPages
      && forall p :: p in x.pages ==> y.pages[p] == x.pages[p] || (PageExpired(x.pages[p], now) && y.pages[p] == ExpiredPage(x.pages[p], now))
  {}

  lemma ReclaimDeadlinePages(x: Execution, now: int)
    ensures var y := ReclaimDeadline(x, now);
      && y.pages.Keys == x.pages.Keys && y.maxPages == x.maxPages
      && forall p :: p in x.pages ==> y.pages[p] == x.pages[p] || y.pages[p] == OverduePage(x.pages[p])
  {}

  lemma ReclaimPages(x: Execution, skipLeases: bool, skipDeadline: bool, now: int)
    ensures var y := ReclaimRow(x, skipLeases, skipDeadline, now);
      && y.pages.Keys == x.pages.Keys && y.maxPages == x.maxPages
      && forall p :: p in x.pages ==> ReclaimedPage(x.pages[p], y.pages[p], now)
  {
    hide ReclaimLeases, ReclaimDeadline, ExpiredPage, OverduePage, PageExpired;
    var a := ReclaimDeliveries(x, now);
    var b := if skipLeases then a else ReclaimLeases(a, now);
    ReclaimLeasePages(a, now);
    ReclaimDeadlinePages(b, now);
  }

  lemma ReclaimedPageWeight(a: Page, b: Page, now: int, host: string)
    requires PageOk(a, host) && ReclaimedPage(a, b, now)
    ensures if b.status != a.status then Weight(b) < Weight(a) else Weight(b) == Weight(a)
    ensures b.attempts == a.attempts
  {}

  lemma ReclaimRank(x: Execution, skipLeases: bool, skipDeadline: bool, now: int)
    requires PagesOk(x)
    ensures Falls(x, ReclaimRow(x, skipLeases, skipDeadline, now))
  {
    var y := ReclaimRow(x, skipLeases, skipDeadline, now);
    ReclaimPages(x, skipLeases, skipDeadline, now);
    forall p | p in x.pages
      ensures if y.pages[p].status != x.pages[p].status then Weight(y.pages[p]) < Weight(x.pages[p])
              else Weight(y.pages[p]) == Weight(x.pages[p])
    {
      ReclaimedPageWeight(x.pages[p], y.pages[p], now, x.host);
    }
    BulkRank(x, y);
  }

  // ------------------------------------------------------------ whole runs

  /** The rank reads nothing but the pages and their budget. */
  lemma FallsFrame(x: Execution, y: Execution, z: Execution)
    requires Falls(x, y) && z.pages == y.pages && z.maxPages == y.maxPages
    ensures Falls(x, z)
  {}

  lemma SamePagesFall(x: Execution, y: Execution)
    requires y.pages == x.pages && y.maxPages == x.maxPages
    ensures Falls(x, y)
  {}

  lemma ClaimFalls(x: Execution, p: Id, owner: Id, until: int, now: int)
    requires PagesOk(x) && Claimable(x, p, now)
    ensures Falls(x, ClaimPage(x, p, owner, until, now))
  {
    hide Falls, Rank, PagesAdvance, Snapshot, Throttled;
    var y := ClaimRow(x, p, owner, until);
    ReplaceRank(x, y, p);
    FallsFrame(x, y, PublishProgress(y, now));
  }

  lemma ExtendFalls(x: Execution, p: Id, until: int)
    requires p in x.pages && x.pages[p].lease.Some?
    ensures Falls(x, ExtendLease(x, p, until))
  {
    ReplaceRank(x, ExtendLease(x, p, until), p);
  }

  lemma CommitFalls(rules: UrlRules, x: Execution, p: Id, result: PageResult, ids: seq<Id>, retryAt: int, now: int)
    requires PagesOk(x) && p in x.pages && x.pages[p].status == PageLeased
    requires FreshIds(x.pages, ids) && |result.links| <= |ids|
    ensures Falls(x, CommitResult(rules, x, p, result, ids, retryAt, now))
  {
    hide Falls, Rank, PagesAdvance, Snapshot, Throttled;
    assert PageOk(x.pages[p], x.host);
    if ShouldRetryPage(result, x.pages[p].attempts) {
      var y := RequeueRow(x, p, retryAt);
      ReplaceRank(x, y, p);
      FallsFrame(x, y, PublishProgress(y, now));
    } else {
      var y := StageRow(rules, x, p, result, ids, now);
      StageRank(rules, x, p, result, ids, now);
      FallsFrame(x, y, PublishProgress(y, now));
    }
  }

  lemma AnalyticsFalls(x: Execution, p: Id, now: int)
    requires PagesOk(x) && p in x.pages && x.pages[p].status == PagePersisting
    ensures Falls(x, CompleteAnalytics(x, p, now))
  {
    hide Falls, Rank, PagesAdvance, Snapshot, Throttled;
    var y := AnalyticsRow(x, p);
    assert PageOk(x.pages[p], x.host);
    ReplaceRank(x, y, p);
    FallsFrame(x, y, PublishProgress(y, now));
  }

  lemma CancelFalls(x: Execution, version: int, now: int)
    requires PagesOk(x)
    ensures Falls(x, Cancel(x, version, now))
  {
    hide PagesOk, Falls, Rank, PagesAdvance, Snapshot, Throttled;
    CancelRank(x, version);
    FallsFrame(x, CancelRow(x, version), Cancel(x, version, now));
  }

  lemma ReclaimFalls(x: Execution, skipLeases: bool, skipDeadline: bool, now: int)
    requires PagesOk(x)
    ensures Falls(x, Reclaim(x, skipLeases, skipDeadline, now))
  {
    hide PagesOk, ReclaimRow, Falls, Rank, PagesAdvance, Snapshot;
    ReclaimRank(x, skipLeases, skipDeadline, now);
    FallsFrame(x, ReclaimRow(x, skipLeases, skipDeadline, now), Reclaim(x, skipLeases, skipDeadline, now));
  }

  /** The transactions of the two outboxes move no page. */
  lemma DeliveryPages(rules: UrlRules, x: Execution, step: Step, now: int)
    requires step.ClaimBatchStep? || step.RetryBatchStep? || step.ClaimEventStep? || step.CompleteEventStep? || step.RetryEventStep?
    ensures var y := Apply(rules, x, step, now); y.pages == x.pages && y.status == x.status && SameCommand(x, y)
  {}

  lemma StepFalls(rules: UrlRules, x: Execution, step: Step, now: int)
    requires Valid(rules, x)
    ensures Falls(x, Apply(rules, x, step, now))
  {
    hide Rank, PagesAdvance, Falls;
    if !Enabled(x, step, now) {
      SamePagesFall(x, x);
    } else {
      match step
      case ClaimStep(p, owner, until) => ClaimFalls(x, p, owner, until, now);
      case ExtendStep(p, _, _, until) => ExtendFalls(x, p, until);
      case CommitStep(p, _, _, result, ids, retryAt) => CommitFalls(rules, x, p, result, ids, retryAt, now);
      case AnalyticsStep(p, _) => AnalyticsFalls(x, p, now);
      case CancelStep(version) => CancelFalls(x, version, now);
      case ReclaimStep(skipLeases, skipDeadline) => ReclaimFalls(x, skipLeases, skipDeadline, now);
      case _ =>
        DeliveryPages(rules, x, step, now);
        SamePagesFall(x, Apply(rules, x, step, now));
    }
  }

  // --------------------------------------------- which transactions move a page

  predicate DeadlineDue(x: Execution, now: int) {
    (x.status == Queued || x.status == Running) && x.deadline <= now
  }

  /** Whether a transaction has something to do to the pages, told from the state before it. */
  ghost predicate Moves(x: Execution, step: Step, now: int) {
    match step
    case ClaimStep(_, _, _) => true
    case CommitStep(_, _, _, _, _, _) => true
    case AnalyticsStep(_, _) => true
    case CancelStep(_) => x.counts.queued + x.counts.leased > 0
    case ReclaimStep(skipLeases, skipDeadline) =>
      || (!skipLeases && exists p :: p in x.pages && PageExpired(x.pages[p], now))
      || (!skipDeadline && DeadlineDue(x, now) && x.counts.queued > 0)
    case _ => false
  }

  lemma AdvanceFrame(x: Execution, y: Execution, z: Execution)
    requires z.pages == y.pages
    ensures PagesAdvance(x, z) <==> PagesAdvance(x, y)
  {}

  lemma ClaimAdvances(x: Execution, p: Id, owner: Id, until: int, now: int)
    requires Claimable(x, p, now)
    ensures PagesAdvance(x, ClaimPage(x, p, owner, until, now))
  {
    hide Snapshot, Throttled;
    var y := ClaimPage(x, p, owner, until, now);
    assert y.pages == ClaimRow(x, p, owner, until).pages;
    assert p in y.pages && y.pages[p].status != x.pages[p].status;
  }

  lemma CommitAdvances(rules: UrlRules, x: Execution, p: Id, result: PageResult, ids: seq<Id>, retryAt: int, now: int)
    requires PagesOk(x) && p in x.pages && x.pages[p].status == PageLeased
    requires FreshIds(x.pages, ids) && |result.links| <= |ids|
    ensures PagesAdvance(x, CommitResult(rules, x, p, result, ids, retryAt, now))
  {
    hide Rank, PagesAdvance, Snapshot, Throttled;
    assert PageOk(x.pages[p], x.host);
    if ShouldRetryPage(result, x.pages[p].attempts) {
      var y := RequeueRow(x, p, retryAt);
      ReplaceRank(x, y, p);
      AdvanceFrame(x, y, PublishProgress(y, now));
    } else {
      var y := StageRow(rules, x, p, result, ids, now);
      StageRank(rules, x, p, result, ids, now);
      AdvanceFrame(x, y, PublishProgress(y, now));
    }
  }

  lemma AnalyticsAdvances(x: Execution, p: Id, now: int)
    requires PagesOk(x) && p in x.pages && x.pages[p].status == PagePersisting
    ensures PagesAdvance(x, CompleteAnalytics(x, p, now))
  {
    hide Rank, PagesAdvance, Snapshot, Throttled;
    var y := AnalyticsRow(x, p);
    assert PageOk(x.pages[p], x.host);
    ReplaceRank(x, y, p);
    AdvanceFrame(x, y, PublishProgress(y, now));
  }

  /** A cancellation moves what is queued or leased, and nothing else. */
  lemma CancelAdvances(x: Execution, version: int, now: int)
    requires CountersMatch(x)
    ensures PagesAdvance(x, Cancel(x, version, now)) <==> x.counts.queued + x.counts.leased > 0
  {
    hide CountersMatch, PagesAdvance, CancelRow, Snapshot, Throttled;
    OpenMatch(x);
    CancelledPages(x, version);
    AdvanceFrame(x, CancelRow(x, version), Cancel(x, version, now));
  }

  lemma OpenMatch(x: Execution)
    requires CountersMatch(x)
    ensures x.counts.queued == |WithStatus(x.pages, PageQueued)| && x.counts.leased == |WithStatus(x.pages, PageLeased)|
  {}

  lemma CancelledPages(x: Execution, version: int)
    ensures PagesAdvance(x, CancelRow(x, version)) <==> WithStatus(x.pages, PageQueued) != {} || WithStatus(x.pages, PageLeased) != {}
  {
    var y := CancelRow(x, version);
    if p :| p in WithStatus(x.pages, PageQueued) + WithStatus(x.pages, PageLeased) {
      assert p in y.pages && y.pages[p].status == PageCancelled;
    } else {
      forall p | p in x.pages ensures x.pages[p].status != PageQueued && x.pages[p].status != PageLeased {
        assert p !in WithStatus(x.pages, PageQueued) + WithStatus(x.pages, PageLeased);
      }
    }
  }

  /** Whatever the deadline does, an expired page that is not passed by loses its lease. */
  lemma LeasesAdvance(x: Execution, skipDeadline: bool, now: int)
    ensures (exists p :: p in x.pages && PageExpired(x.pages[p], now)) ==> PagesAdvance(x, ReclaimRow(x, false, skipDeadline, now))
  {
    if p :| p in x.pages && PageExpired(x.pages[p], now) {
      var b := ReclaimLeases(ReclaimDeliveries(x, now), now);
      assert p in ExpiredSet(ReclaimDeliveries(x, now), now);
      assert b.pages[p] == ExpiredPage(x.pages[p], now);
      hide ReclaimLeases, ExpiredSet;
      ReclaimDeadlinePages(b, now);
      var y := ReclaimRow(x, false, skipDeadline, now);
      hide ReclaimDeadline;
      assert p in y.pages && y.pages[p].status != x.pages[p].status;
    }
  }

  /** A queued page fails once the deadline is due and not passed by. */
  lemma DeadlineAdvances(x: Execution, skipLeases: bool, now: int)
    requires DeadlineDue(x, now)
    ensures WithStatus(x.pages, PageQueued) != {} ==> PagesAdvance(x, ReclaimRow(x, skipLeases, false, now))
  {
    var a := ReclaimDeliveries(x, now);
    var b := if skipLeases then a else ReclaimLeases(a, now);
    if p :| p in WithStatus(x.pages, PageQueued) {
      assert p in b.pages && b.pages[p] == x.pages[p];
      assert DeadlineDue(b, now) && p in WithStatus(b.pages, PageQueued);
      hide ReclaimLeases;
      assert ReclaimDeadline(b, now).pages[p] == OverduePage(x.pages[p]);
      var y := ReclaimRow(x, skipLeases, false, now);
      hide ReclaimDeadline;
      assert p in y.pages && y.pages[p].status != x.pages[p].status;
    }
  }

  /** Without such a page nothing moves. */
  lemma NothingAdvances(x: Execution, skipLeases: bool, skipDeadline: bool, now: int)
    requires skipLeases || forall p :: p in x.pages ==> !PageExpired(x.pages[p], now)
    requires skipDeadline || !DeadlineDue(x, now) || WithStatus(x.pages, PageQueued) == {}
    ensures ReclaimRow(x, skipLeases, skipDeadline, now).pages == x.pages
  {
    var a := ReclaimDeliveries(x, now);
    var b := if skipLeases then a else ReclaimLeases(a, now);
    if !skipLeases {
      assert ExpiredSet(a, now) == {};
    }
    assert b == a;
    hide ReclaimLeases;
    assert (if skipDeadline then b else ReclaimDeadline(b, now)).pages == x.pages;
  }

  lemma ReclaimAdvances(x: Execution, skipLeases: bool, skipDeadline: bool, now: int)
    requires CountersMatch(x)
    ensures PagesAdvance(x, Reclaim(x, skipLeases, skipDeadline, now)) <==> Moves(x, ReclaimStep(skipLeases, skipDeadline), now)
  {
    hide ReclaimRow, PagesAdvance, Snapshot, Throttled;
    assert x.counts.queued == |WithStatus(x.pages, PageQueued)|;
    hide CountersMatch;
    var y := ReclaimRow(x, skipLeases, skipDeadline, now);
    AdvanceFrame(x, y, Reclaim(x, skipLeases, skipDeadline, now));
    if !skipLeases && exists p :: p in x.pages && PageExpired(x.pages[p], now) {
      LeasesAdvance(x, skipDeadline, now);
    } else if !skipDeadline && DeadlineDue(x, now) && WithStatus(x.pages, PageQueued) != {} {
      DeadlineAdvances(x, skipLeases, now);
    } else {
      NothingAdvances(x, skipLeases, skipDeadline, now);
      NoAdvance(x, y);
    }
  }

  lemma NoAdvance(x: Execution, y: Execution)
    requires y.pages == x.pages
    ensures !PagesAdvance(x, y)
  {}

  lemma ExtendAdvances(x: Execution, p: Id, until: int)
    requires p in x.pages && x.pages[p].lease.Some?
    ensures !PagesAdvance(x, ExtendLease(x, p, until))
  {}

  lemma StepAdvances(rules: UrlRules, x: Execution, step: Step, now: int)
    requires CountersMatch(x) && PagesOk(x)
    ensures PagesAdvance(x, Apply(rules, x, step, now)) <==> Enabled(x, step, now) && Moves(x, step, now)
  {
    hide PagesAdvance, CountersMatch, PagesOk, Snapshot, Throttled, PageExpired;
    if !Enabled(x, step, now) {
      NoAdvance(x, x);
    } else {
      match step
      case ClaimStep(p, owner, until) => ClaimAdvances(x, p, owner, until, now);
      case ExtendStep(p, _, _, until) => ExtendAdvances(x, p, until);
      case CommitStep(p, _, _, result, ids, retryAt) => CommitAdvances(rules, x, p, result, ids, retryAt, now);
      case AnalyticsStep(p, _) => AnalyticsAdvances(x, p, now);
      case CancelStep(version) => CancelAdvances(x, version, now);
      case ReclaimStep(skipLeases, skipDeadline) => ReclaimAdvances(x, skipLeases, skipDeadline, now);
      case _ =>
        DeliveryPages(rules, x, step, now);
        NoAdvance(x, Apply(rules, x, step, now));
    }
  }

  /**
   * The rank never rises. It falls with every enabled claim, commit and
   * analytics completion; with a cancellation exactly when something is queued
   * or leased; with a reclamation exactly when it does not pass by an expired
   * lease or, past the deadline, a queued page; and with nothing else.
   */
  lemma StepRank(rules: UrlRules, x: Execution, step: Step, now: int)
    requires Valid(rules, x)
    ensures Rank(Apply(rules, x, step, now)) <= Rank(x)
    ensures Rank(Apply(rules, x, step, now)) < Rank(x) <==> Enabled(x, step, now) && Moves(x, step, now)
    ensures PagesAdvance(x, Apply(rules, x, step, now)) <==> Rank(Apply(rules, x, step, now)) < Rank(x)
  {
    hide Valid, FrontierOk, CountersMatch, PagesOk, Apply, Enabled, Moves, Rank, PagesAdvance;
    ValidParts(rules, x);
    FrontierParts(rules, x);
    StepFalls(rules, x, step, now);
    StepAdvances(rules, x, step, now);
  }

  const ONE_PAGE := ScanCommand("u", "h", 1, 0, 1, 1, 0)
  const NO_LINKS := PageResult(FetchSuccess, "", 200, [], 0)

  /**
   * A first cancellation that moves no page: the only page of a running scan is
   * persisting when it comes, and the rank stays what it was.
   */
  lemma FirstCancelMovesNone(rules: UrlRules) returns (run: seq<Execution>)
    ensures IsScanRun(rules, ONE_PAGE, run) && |run| == 3 && run[2].status == Running && run[2].commandVersion == ONE_PAGE.version
    ensures Enabled(run[2], CancelStep(1), 0) && Rank(Apply(rules, run[2], CancelStep(1), 0)) == Rank(run[2])
    ensures Apply(rules, run[2], CancelStep(1), 0).status == CancelRequested
  {
    hide Valid, Apply, Enabled, IsRun, NewExecution, Rank;
    var x := NewExecution(ONE_PAGE, "u", 0, 0);
    var y := FirstLeased(rules);
    var z := ThenStaged(rules, y);
    run := [x, y, z];
    ShortRun(rules, x, y, z);
    ScanRunValid(rules, ONE_PAGE, run);
    StepRank(rules, z, CancelStep(1), 0);
    CancelApplies(rules, z);
  }

  lemma FirstLeased(rules: UrlRules) returns (y: Execution)
    ensures Next(rules, NewExecution(ONE_PAGE, "u", 0, 0), y)
    ensures HoldsLease(y, 0, 7, 1) && y.pages[0].attempts == 1 && y.status == Running && y.commandVersion == 0
    ensures y.maxDepth == 0 && y.counts == Counts(1, 0, 1, 0, 0, 0, 0, 0, 0, 0)
  {
    var x := NewExecution(ONE_PAGE, "u", 0, 0);
    y := PublishProgress(ClaimRow(x, 0, 7, 1), 0);
    PublishedRow(ClaimRow(x, 0, 7, 1), 0);
    hide PublishProgress;
    assert Enabled(x, ClaimStep(0, 7, 1), 0);
    assert y == Apply(rules, x, ClaimStep(0, 7, 1), 0);
  }

  lemma ThenStaged(rules: UrlRules, y: Execution) returns (z: Execution)
    requires HoldsLease(y, 0, 7, 1) && y.pages[0].attempts == 1 && y.status == Running && y.commandVersion == 0
    requires y.maxDepth == 0 && y.counts == Counts(1, 0, 1, 0, 0, 0, 0, 0, 0, 0)
    ensures Next(rules, y, z) && z.status == Running && z.commandVersion == 0
    ensures z.counts == Counts(1, 0, 0, 1, 0, 0, 0, 0, 1, 0)
  {
    NotRetried();
    hide ShouldRetryPage, PublishProgress;
    var row := StageRow(rules, y, 0, NO_LINKS, [], 0);
    z := PublishProgress(row, 0);
    PublishedRow(row, 0);
    var step := CommitStep(0, 7, 1, NO_LINKS, [], 0);
    assert Enabled(y, step, 0);
    assert z == Apply(rules, y, step, 0);
  }

  lemma CancelApplies(rules: UrlRules, z: Execution)
    requires z.status == Running && z.commandVersion == 0 && z.counts.persisting == 1 && z.counts.queued == 0 && z.counts.leased == 0
    ensures Enabled(z, CancelStep(1), 0) && Apply(rules, z, CancelStep(1), 0).status == CancelRequested && !Moves(z, CancelStep(1), 0)
  {
    PublishedRow(CancelRow(z, 1), 0);
    hide PublishProgress;
  }

  lemma ShortRun(rules: UrlRules, x: Execution, y: Execution, z: Execution)
    requires Next(rules, x, y) && Next(rules, y, z)
    ensures IsRun(rules, [x, y, z])
  {
    hide Next;
    var run := [x, y, z];
    assert StepAt(rules, run, 1) && StepAt(rules, run, 2);
  }

  lemma NotRetried()
    ensures !ShouldRetryPage(NO_LINKS, 1)
  {
    assert Lower("") == "";
  }

  lemma PublishedRow(x: Execution, now: int)
    ensures PublishProgress(x, now) == x.(outbox := PublishProgress(x, now).outbox)
  {
    hide Snapshot, Throttled;
  }

  /** How many transactions of a run moved a page. */
  ghost function Advances(run: seq<Execution>): nat {
    if |run| < 2 then 0
    else Advances(run[..|run| - 1]) + One(PagesAdvance(run[|run| - 2], run[|run| - 1]))
  }

  lemma {:induction false} RunRank(rules: UrlRules, run: seq<Execution>)
    requires IsRun(rules, run) && Valid(rules, run[0])
    ensures Rank(Last(run)) + Advances(run) <= Rank(run[0])
  {
    hide Valid, Apply, Rank, PagesAdvance;
    if |run| > 1 {
      var init := run[..|run| - 1];
      RunStep(rules, run);
      RunRank(rules, init);
      RunKeepsValid(rules, init);
      var step, now :| Last(run) == Apply(rules, Last(init), step, now);
      StepRank(rules, Last(init), step, now);
    }
  }

  /** Any run of an accepted scan moves pages at most eight times per budgeted page. */
  lemma CrawlTerminates(rules: UrlRules, command: ScanCommand, run: seq<Execution>)
    requires IsScanRun(rules, command, run)
    ensures Advances(run) <= 8 * command.maxPages
  {
    hide Valid, Rank, StepAt, ValidCommand;
    var url, seed, start :| run[0] == NewExecution(command, url, seed, start);
    NewExecutionValid(rules, command, url, seed, start);
    RunRank(rules, run);
    RunKeepsValid(rules, run);
    RankBounds(rules, run[0]);
    RankBounds(rules, Last(run));
  }

  // ------------------------------------------------------------------ claims

  function PageAttempts(page: Page): int {
    page.attempts
  }

  ghost function Attempts(x: Execution): int {
    Total(x.pages, PageAttempts)
  }

  /** Some page was leased once more. */
  ghost predicate LeasedAgain(x: Execution, y: Execution) {
    exists p :: p in x.pages && p in y.pages && y.pages[p].attempts > x.pages[p].attempts
  }

  ghost predicate Uses(x: Execution, y: Execution, claimed: bool) {
    Attempts(y) == Attempts(x) + One(claimed) && (LeasedAgain(x, y) <==> claimed)
  }

  /** Attempts are read from the pages alone. */
  lemma UsesFrame(x: Execution, y: Execution, z: Execution, claimed: bool)
    requires Uses(x, y, claimed) && z.pages == y.pages
    ensures Uses(x, z, claimed)
  {}

  lemma ReplaceUses(x: Execution, y: Execution, p: Id)
    requires p in x.pages && p in y.pages && y.pages == x.pages[p := y.pages[p]]
    requires x.pages[p].attempts <= y.pages[p].attempts <= x.pages[p].attempts + 1
    ensures Uses(x, y, y.pages[p].attempts > x.pages[p].attempts)
  {
    TotalUpdate(x.pages, PageAttempts, p, y.pages[p]);
  }

  lemma SameUses(x: Execution, y: Execution)
    requires y.pages.Keys == x.pages.Keys
    requires forall p :: p in x.pages ==> y.pages[p].attempts == x.pages[p].attempts
    ensures Uses(x, y, false)
  {
    TotalCompare(x.pages, y.pages, PageAttempts);
    TotalCompare(y.pages, x.pages, PageAttempts);
  }

  lemma {:induction false} InsertAttempts(pages: map<Id, Page>, parent: Id, page: Page, urls: seq<string>, ids: seq<Id>, now: int)
    requires |urls| <= |ids| && FreshIds(pages, ids)
    ensures Total(InsertPages(pages, parent, page, urls, ids, now), PageAttempts) == Total(pages, PageAttempts)
  {
    if urls != [] {
      var last := |urls| - 1;
      var before := InsertPages(pages, parent, page, urls[..last], ids, now);
      InsertAttempts(pages, parent, page, urls[..last], ids, now);
      assert ids[last] !in before;
      TotalUpdate(before, PageAttempts, ids[last], DiscoveredPage(parent, page, urls[last], now));
    }
  }

  lemma StageUses(rules: UrlRules, x: Execution, p: Id, result: PageResult, ids: seq<Id>, now: int)
    requires p in x.pages && FreshIds(x.pages, ids) && |result.links| <= |ids|
    ensures Uses(x, StageRow(rules, x, p, result, ids, now), false)
  {
    var staged := StagedPage(x.pages[p], result);
    TotalUpdate(x.pages, PageAttempts, p, staged);
    InsertAttempts(x.pages[p := staged], p, x.pages[p], NewUrls(rules, x, p, result.links), ids, now);
    StageRows(rules, x, p, result, ids, now);
  }

  lemma ReclaimUses(x: Execution, skipLeases: bool, skipDeadline: bool, now: int)
    requires PagesOk(x)
    ensures Uses(x, Reclaim(x, skipLeases, skipDeadline, now), false)
  {
    hide ReclaimRow, Uses, ExpiredPage, ReclaimedPage;
    var y := ReclaimRow(x, skipLeases, skipDeadline, now);
    ReclaimPages(x, skipLeases, skipDeadline, now);
    forall p | p in x.pages ensures y.pages[p].attempts == x.pages[p].attempts {
      ReclaimedPageWeight(x.pages[p], y.pages[p], now, x.host);
    }
    SameUses(x, y);
    UsesFrame(x, y, Reclaim(x, skipLeases, skipDeadline, now), false);
  }

  lemma CommitUses(rules: UrlRules, x: Execution, p: Id, result: PageResult, ids: seq<Id>, retryAt: int, now: int)
    requires p in x.pages && FreshIds(x.pages, ids) && |result.links| <= |ids|
    ensures Uses(x, CommitResult(rules, x, p, result, ids, retryAt, now), false)
  {
    hide Uses;
    if ShouldRetryPage(result, x.pages[p].attempts) {
      var y := RequeueRow(x, p, retryAt);
      ReplaceUses(x, y, p);
      UsesFrame(x, y, PublishProgress(y, now), false);
    } else {
      var y := StageRow(rules, x, p, result, ids, now);
      StageUses(rules, x, p, result, ids, now);
      UsesFrame(x, y, PublishProgress(y, now), false);
    }
  }

  lemma ClaimUses(x: Execution, p: Id, owner: Id, until: int, now: int)
    requires p in x.pages
    ensures Uses(x, ClaimPage(x, p, owner, until, now), true)
  {
    hide Uses;
    var y := ClaimRow(x, p, owner, until);
    ReplaceUses(x, y, p);
    UsesFrame(x, y, PublishProgress(y, now), true);
  }

  lemma AnalyticsUses(x: Execution, p: Id, now: int)
    requires p in x.batches && p in x.pages && x.pages[p].pending.Some?
    ensures Uses(x, CompleteAnalytics(x, p, now), false)
  {
    hide Uses;
    var y := AnalyticsRow(x, p);
    ReplaceUses(x, y, p);
    UsesFrame(x, y, PublishProgress(y, now), false);
  }

  lemma CancelUses(x: Execution, version: int, now: int)
    ensures Uses(x, Cancel(x, version, now), false)
  {
    hide Uses;
    SameUses(x, CancelRow(x, version));
    UsesFrame(x, CancelRow(x, version), Cancel(x, version, now), false);
  }

  lemma StepUses(rules: UrlRules, x: Execution, step: Step, now: int)
    requires PagesOk(x)
    ensures Uses(x, Apply(rules, x, step, now), step.ClaimStep? && Enabled(x, step, now))
  {
    hide Uses, PagesOk;
    if !Enabled(x, step, now) {
      SameUses(x, x);
    } else {
      match step
      case ClaimStep(p, owner, until) => ClaimUses(x, p, owner, until, now);
      case ExtendStep(p, _, _, until) => ReplaceUses(x, ExtendLease(x, p, until), p);
      case CommitStep(p, _, _, result, ids, retryAt) => CommitUses(rules, x, p, result, ids, retryAt, now);
      case AnalyticsStep(p, _) => AnalyticsUses(x, p, now);
      case CancelStep(version) => CancelUses(x, version, now);
      case ReclaimStep(skipLeases, skipDeadline) => ReclaimUses(x, skipLeases, skipDeadline, now);
      case _ =>
        DeliveryPages(rules, x, step, now);
        SameUses(x, Apply(rules, x, step, now));
    }
  }

  /** Only a claim uses up an attempt, and it uses up one. */
  lemma StepAttempts(rules: UrlRules, x: Execution, step: Step, now: int)
    requires Valid(rules, x)
    ensures Attempts(Apply(rules, x, step, now)) == Attempts(x) + One(step.ClaimStep? && Enabled(x, step, now))
    ensures LeasedAgain(x, Apply(rules, x, step, now)) <==> step.ClaimStep? && Enabled(x, step, now)
  {
    hide Valid, FrontierOk, PagesOk, Apply, Enabled, Attempts, LeasedAgain;
    ValidParts(rules, x);
    FrontierParts(rules, x);
    StepUses(rules, x, step, now);
  }

  /** How many transactions of a run leased a page. */
  ghost function ClaimCount(run: seq<Execution>): nat {
    if |run| < 2 then 0
    else ClaimCount(run[..|run| - 1]) + One(LeasedAgain(run[|run| - 2], run[|run| - 1]))
  }

  lemma {:induction false} RunAttempts(rules: UrlRules, run: seq<Execution>)
    requires IsRun(rules, run) && Valid(rules, run[0])
    ensures Attempts(Last(run)) == Attempts(run[0]) + ClaimCount(run)
  {
    hide Valid, Apply, Attempts, LeasedAgain;
    if |run| > 1 {
      var init := run[..|run| - 1];
      RunStep(rules, run);
      RunAttempts(rules, init);
      RunKeepsValid(rules, init);
      var step, now :| Last(run) == Apply(rules, Last(init), step, now);
      StepAttempts(rules, Last(init), step, now);
    }
  }

  lemma NewExecutionAttempts(command: ScanCommand, url: string, seed: Id, now: int)
    ensures Attempts(NewExecution(command, url, seed, now)) == 0
  {
    var x := NewExecution(command, url, seed, now);
    assert forall p :: p in x.pages ==> PageAttempts(x.pages[p]) == 0;
    TotalBound(x.pages, PageAttempts, 0);
  }

  lemma AttemptsBound(rules: UrlRules, x: Execution)
    requires Valid(rules, x)
    ensures Attempts(x) <= MAX_ATTEMPTS * x.maxPages
    ensures forall p :: p in x.pages ==> x.pages[p].attempts <= MAX_ATTEMPTS
  {
    forall p | p in x.pages ensures 0 <= PageAttempts(x.pages[p]) <= MAX_ATTEMPTS {
      assert PageOk(x.pages[p], x.host);
    }
    TotalBound(x.pages, PageAttempts, MAX_ATTEMPTS);
  }

  /** A scan leases pages at most three times its page budget, and no page more than three times. */
  lemma ClaimsBounded(rules: UrlRules, command: ScanCommand, run: seq<Execution>)
    requires IsScanRun(rules, command, run)
    ensures ClaimCount(run) <= MAX_ATTEMPTS * command.maxPages
    ensures forall p :: p in Last(run).pages ==> Last(run).pages[p].attempts <= MAX_ATTEMPTS
  {
    hide Valid, StepAt, ValidCommand;
    var url, seed, start :| run[0] == NewExecution(command, url, seed, start);
    NewExecutionValid(rules, command, url, seed, start);
    RunAttempts(rules, run);
    RunKeepsValid(rules, run);
    RunCommand(rules, run);
    AttemptsBound(rules, Last(run));
    NewExecutionAttempts(command, url, seed, start);
  }

  lemma ReclaimRowCommand(x: Execution, skipLeases: bool, skipDeadline: bool, now: int)
    ensures SameCommand(x, ReclaimRow(x, skipLeases, skipDeadline, now))
  {
    var a := ReclaimDeliveries(x, now);
    var b := if skipLeases then a else ReclaimLeases(a, now);
    assert SameCommand(a, b);
    var c := if skipDeadline then b else ReclaimDeadline(b, now);
    assert SameCommand(b, c) by { hide ReclaimLeases; }
  }

  lemma ReclaimCommand(x: Execution, skipLeases: bool, skipDeadline: bool, now: int)
    ensures SameCommand(x, Reclaim(x, skipLeases, skipDeadline, now))
  {
    hide ReclaimRow, Throttled, Snapshot;
    ReclaimRowCommand(x, skipLeases, skipDeadline, now);
  }

  lemma StepCommand(rules: UrlRules, x: Execution, step: Step, now: int)
    ensures SameCommand(x, Apply(rules, x, step, now))
  {
    if Enabled(x, step, now) {
      match step
      case ReclaimStep(skipLeases, skipDeadline) => ReclaimCommand(x, skipLeases, skipDeadline, now);
      case ClaimStep(_, _, _) =>
      case ExtendStep(_, _, _, _) =>
      case CommitStep(_, _, _, _, _, _) =>
      case AnalyticsStep(_, _) =>
      case CancelStep(_) =>
      case _ => DeliveryPages(rules, x, step, now);
    }
  }

  /** The command's limits never change. */
  lemma {:induction false} RunCommand(rules: UrlRules, run: seq<Execution>)
    requires IsRun(rules, run)
    ensures SameCommand(run[0], Last(run))
  {
    hide Apply;
    if |run| > 1 {
      var init := run[..|run| - 1];
      RunStep(rules, run);
      RunCommand(rules, init);
      var step, now :| Last(run) == Apply(rules, Last(init), step, now);
      StepCommand(rules, Last(init), step, now);
    }
  }
}
