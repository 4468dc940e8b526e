/** What becomes of a page and of its scan, told in the fields of the results that were committed. */
module PageOutcomes {
  import opened Common
  import opened Frontier
  import opened FrontierInvariant
  import opened EventLane

  /** The page has this status, or takes it once its analytics are delivered. */
  predicate EndsAs(page: Page, status: PageStatus) {
    page.status == status || (page.status == PagePersisting && page.pending == Some(status))
  }

  /** A page was fetched: not left out, without an error, and below the error codes of HTTP. */
  predicate Fetched(result: PageResult) {
    result.outcome != FetchSkipped && result.errorCode == "" && result.statusCode < 400
  }

  /** Another attempt may help. */
  predicate Transient(result: PageResult) {
    || Lower(result.errorCode) == "timeout" || Lower(result.errorCode) == "dns_failed"
    || Lower(result.errorCode) == "network_failed" || Lower(result.errorCode) == "body_read_failed"
    || result.statusCode == 429 || result.statusCode == 500
    || (502 <= result.statusCode <= 504)
  }

  lemma OutcomeOf(page: Page, host: string)
    requires PageOk(page, host)
    ensures EndsAs(page, PageSucceeded) <==> page.accepted.Some? && Fetched(page.accepted.value)
    ensures EndsAs(page, PageSkipped) <==> page.accepted.Some? && page.accepted.value.outcome == FetchSkipped
    ensures page.accepted.Some? && page.accepted.value.outcome != FetchSkipped && !Fetched(page.accepted.value) ==> EndsAs(page, PageFailed)
    ensures page.accepted.Some? ==> page.accepted.value.encoded <= 4_194_304
    ensures page.accepted.Some? && Transient(page.accepted.value) ==> page.attempts == 3
  {}

  lemma PageInOrder(rules: UrlRules, command: ScanCommand, run: seq<Execution>, p: Id)
    requires IsScanRun(rules, command, run) && p in Last(run).pages
    ensures PageOk(Last(run).pages[p], Last(run).host)
  {
    hide ValidCommand, NewExecution, StepAt, PageOk, CountersMatch, StatusOk, TreeOk, OutboxOk;
    ScanRunValid(rules, command, run);
  }

  /**
   * In every reachable state: a page is or will be SUCCEEDED exactly when its
   * accepted result was fetched, and SKIPPED exactly when it was left out; any
   * other accepted result is or will be FAILED. No accepted result is too
   * large, and a transient one is only accepted on the third attempt.
   */
  lemma OutcomeTold(rules: UrlRules, command: ScanCommand, run: seq<Execution>, p: Id)
    requires IsScanRun(rules, command, run) && p in Last(run).pages
    ensures var page := Last(run).pages[p];
      && (EndsAs(page, PageSucceeded) <==> page.accepted.Some? && Fetched(page.accepted.value))
      && (EndsAs(page, PageSkipped) <==> page.accepted.Some? && page.accepted.value.outcome == FetchSkipped)
      && (page.accepted.Some? && page.accepted.value.outcome != FetchSkipped && !Fetched(page.accepted.value) ==> EndsAs(page, PageFailed))
      && (page.accepted.Some? ==> page.accepted.value.encoded <= 4_194_304)
      && (page.accepted.Some? && Transient(page.accepted.value) ==> page.attempts == 3)
  {
    hide IsScanRun, PageOk, Fetched, Transient, EndsAs;
    NotEmpty(rules, command, run);
    PageInOrder(rules, command, run, p);
    OutcomeOf(Last(run).pages[p], Last(run).host);
  }

  lemma NotEmpty(rules: UrlRules, command: ScanCommand, run: seq<Execution>)
    requires IsScanRun(rules, command, run)
    ensures |run| > 0
  {}

  // ------------------------------------------------------------- one commit

  /** The page waits for its next attempt, and nothing else has changed in the rows. */
  predicate Requeued(x: Execution, y: Execution, p: Id, retryAt: int)
    requires p in x.pages
  {
    && y.pages == x.pages[p := x.pages[p].(status := PageQueued, lease := None, availableAt := retryAt)]
    && y.batches == x.batches && y.status == x.status
    && y.counts == x.counts.(queued := x.counts.queued + 1, leased := x.counts.leased - 1)
  }

  /** The result is accepted: the page is PERSISTING, with an analytics row that is due at once. */
  predicate Taken(x: Execution, y: Execution, p: Id, result: PageResult, now: int)
    requires p in x.pages
  {
    && p in y.pages && y.pages[p].status == PagePersisting && y.pages[p].accepted == Some(result) && y.pages[p].lease == None
    && (y.pages[p].pending == Some(PageSucceeded) <==> Fetched(result))
    && y.batches == x.batches[p := Batch(Pending, 0, now, None)] && y.status == x.status
    && y.counts.leased == x.counts.leased - 1 && y.counts.persisting == x.counts.persisting + 1
    && y.counts.expected == x.counts.expected + 1
    && forall q :: q in y.pages && q !in x.pages ==> Discovers(p, x.pages[p], y.pages[q], now)
  }

  /** A page that was found on another waits for its first attempt, due at once, one level further down. */
  predicate Discovers(parent: Id, page: Page, found: Page, now: int) {
    && found.status == PageQueued && found.availableAt == now && found.attempts == 0 && found.lease == None && found.accepted == None
    && found.parent == Some(parent) && found.depth == page.depth + 1 && found.host == page.host
  }

  lemma PublishedRows(y: Execution, now: int)
    ensures PublishProgress(y, now) == y.(outbox := PublishProgress(y, now).outbox)
  {
    hide Snapshot, Throttled;
  }

  lemma StagedRow(rules: UrlRules, x: Execution, p: Id, result: PageResult, ids: seq<Id>, now: int)
    requires p in x.pages && |result.links| <= |ids| && FreshIds(x.pages, ids)
    ensures Taken(x, StageRow(rules, x, p, result, ids, now), p, result, now)
  {
    StageRows(rules, x, p, result, ids, now);
    hide InsertPages, NewUrls;
    NewPagesFound(x, StageRow(rules, x, p, result, ids, now), p, result, NewUrls(rules, x, p, result.links), ids, now);
  }

  lemma NewPagesFound(x: Execution, y: Execution, p: Id, result: PageResult, urls: seq<string>, ids: seq<Id>, now: int)
    requires StagedRows(x, y, p, result, urls, ids, now)
    ensures forall q :: q in y.pages && q !in x.pages ==> Discovers(p, x.pages[p], y.pages[q], now)
  {
    hide Discovers;
    forall q | q in y.pages && q !in x.pages ensures Discovers(p, x.pages[p], y.pages[q], now) {
      var i :| 0 <= i < |urls| && ids[i] == q;
      FoundPage(p, x.pages[p], urls[i], now);
    }
  }

  lemma FoundPage(p: Id, page: Page, url: string, now: int)
    ensures Discovers(p, page, DiscoveredPage(p, page, url, now), now)
  {}

  /**
   * What a commit under a held lease does: a transient result is tried again
   * until the third attempt, any other is accepted if it is not too large.
   */
  lemma CommitDecides(rules: UrlRules, x: Execution, p: Id, owner: Id, generation: nat, result: PageResult, ids: seq<Id>, retryAt: int, now: int)
    requires HoldsLease(x, p, owner, generation) && FreshIds(x.pages, ids) && |result.links| <= |ids|
    ensures var y := Apply(rules, x, CommitStep(p, owner, generation, result, ids, retryAt), now);
      if Transient(result) && x.pages[p].attempts < 3 then Requeued(x, y, p, retryAt)
      else if result.encoded <= 4_194_304 then Taken(x, y, p, result, now)
      else y == x
  {
    hide PublishProgress, StageRow, Requeued, Taken, FreshIds;
    var y := if ShouldRetryPage(result, x.pages[p].attempts) then RequeueRow(x, p, retryAt) else StageRow(rules, x, p, result, ids, now);
    PublishedRows(y, now);
    Retried(result, x.pages[p].attempts);
    hide ShouldRetryPage, Transient, RequeueRow;
    if ShouldRetryPage(result, x.pages[p].attempts) {
      RequeuedRow(x, p, retryAt, now);
    } else {
      StagedRow(rules, x, p, result, ids, now);
      TakenFrame(x, y, PublishProgress(y, now), p, result, now);
    }
  }

  lemma Retried(result: PageResult, attempts: nat)
    ensures ShouldRetryPage(result, attempts) <==> Transient(result) && attempts < 3
  {}

  lemma RequeuedRow(x: Execution, p: Id, retryAt: int, now: int)
    requires p in x.pages
    ensures Requeued(x, PublishProgress(RequeueRow(x, p, retryAt), now), p, retryAt)
  {
    PublishedRows(RequeueRow(x, p, retryAt), now);
    hide PublishProgress;
  }

  lemma TakenFrame(x: Execution, y: Execution, z: Execution, p: Id, result: PageResult, now: int)
    requires p in x.pages && Taken(x, y, p, result, now) && z == y.(outbox := z.outbox)
    ensures Taken(x, z, p, result, now)
  {}

  // ------------------------------------------------------------- one claim

  /** A page becomes LEASED only when it waits and is due, before the deadline, within the concurrency; it uses up an attempt. */
  ghost predicate LeasedOnTime(x: Execution, y: Execution, p: Id, now: int) {
    p in y.pages && y.pages[p].status == PageLeased && !(p in x.pages && x.pages[p].status == PageLeased) ==>
      && p in x.pages && x.pages[p].status == PageQueued
      && x.pages[p].availableAt <= now < x.deadline && x.counts.leased < x.maxConcurrency
      && y.pages[p].attempts == x.pages[p].attempts + 1 && y.pages[p].generation == x.pages[p].generation + 1
  }

  ghost predicate NoneLeased(x: Execution, y: Execution) {
    forall p :: p in y.pages && y.pages[p].status == PageLeased ==> p in x.pages && x.pages[p].status == PageLeased
  }

  lemma ExpiryLeasesNone(x: Execution, now: int)
    ensures NoneLeased(x, ReclaimDeliveries(x, now)) && NoneLeased(x, ReclaimLeases(x, now))
  {
    hide ExpiredSet, SpentSet;
  }

  lemma DeadlineLeasesNone(x: Execution, now: int)
    ensures NoneLeased(x, ReclaimDeadline(x, now)) && NoneLeased(x, Terminalize(x))
  {
    hide WithStatus;
  }

  lemma NoneLeasedSince(x: Execution, y: Execution, z: Execution)
    requires NoneLeased(x, y) && NoneLeased(y, z)
    ensures NoneLeased(x, z)
  {}

  lemma ReclaimLeasesNone(x: Execution, skipLeases: bool, skipDeadline: bool, now: int)
    ensures NoneLeased(x, Reclaim(x, skipLeases, skipDeadline, now))
  {
    hide NoneLeased, ReclaimDeliveries, ReclaimLeases, ReclaimDeadline, Terminalize;
    var a := ReclaimDeliveries(x, now);
    var b := if skipLeases then a else ReclaimLeases(a, now);
    var c := if skipDeadline then b else ReclaimDeadline(b, now);
    var d := Terminalize(c);
    ExpiryLeasesNone(x, now);
    ExpiryLeasesNone(a, now);
    DeadlineLeasesNone(b, now);
    DeadlineLeasesNone(c, now);
    if !skipLeases { NoneLeasedSince(x, a, b); }
    if !skipDeadline { NoneLeasedSince(x, b, c); }
    NoneLeasedSince(x, c, d);
    PublishedRows(d, now);
    NoneLeasedFrame(x, d, PublishProgress(d, now));
    hide PublishProgress;
  }

  lemma NoneLeasedFrame(x: Execution, y: Execution, z: Execution)
    requires NoneLeased(x, y) && z.pages == y.pages
    ensures NoneLeased(x, z)
  {}

  lemma StageLeasesNone(rules: UrlRules, x: Execution, p: Id, result: PageResult, ids: seq<Id>, now: int)
    requires p in x.pages && |result.links| <= |ids| && FreshIds(x.pages, ids)
    ensures NoneLeased(x, StageRow(rules, x, p, result, ids, now))
  {
    StageRows(rules, x, p, result, ids, now);
    var y, urls := StageRow(rules, x, p, result, ids, now), NewUrls(rules, x, p, result.links);
    hide StageRow, NewUrls;
    forall q | q in y.pages && q !in x.pages ensures y.pages[q].status != PageLeased {
      var i :| 0 <= i < |urls| && ids[i] == q;
    }
  }

  lemma CommitLeasesNone(rules: UrlRules, x: Execution, p: Id, owner: Id, generation: nat, result: PageResult, ids: seq<Id>, retryAt: int, now: int)
    ensures NoneLeased(x, Apply(rules, x, CommitStep(p, owner, generation, result, ids, retryAt), now))
  {
    hide PublishProgress, ShouldRetryPage, StageRow, FreshIds;
    if Enabled(x, CommitStep(p, owner, generation, result, ids, retryAt), now) {
      var y := if ShouldRetryPage(result, x.pages[p].attempts) then RequeueRow(x, p, retryAt) else StageRow(rules, x, p, result, ids, now);
      PublishedRows(y, now);
      if !ShouldRetryPage(result, x.pages[p].attempts) {
        StageLeasesNone(rules, x, p, result, ids, now);
      }
      NoneLeasedFrame(x, y, PublishProgress(y, now));
    }
  }

  lemma OtherLeasesNone(rules: UrlRules, x: Execution, step: Step, now: int)
    requires !step.ClaimStep? && !step.CommitStep? && !step.ReclaimStep?
    ensures PagesOk(x) ==> NoneLeased(x, Apply(rules, x, step, now))
  {
    hide PublishProgress, TerminalOutcome, Settles;
    if PagesOk(x) && Enabled(x, step, now) {
      match step
      case AnalyticsStep(p, _) =>
        assert PageOk(x.pages[p], x.host) && TerminalOutcome(x.pages[p].accepted.value) != PageLeased by { OutcomeEnds(x.pages[p].accepted.value); }
        PublishedRows(AnalyticsRow(x, p), now);
      case CancelStep(version) => PublishedRows(CancelRow(x, version), now);
      case _ =>
    }
  }

  lemma OutcomeEnds(result: PageResult)
    ensures TerminalOutcome(result) != PageLeased
  {}

  /** Over whole runs, no lease is granted early, late, or past the concurrency. */
  lemma ClaimsOnTime(rules: UrlRules, command: ScanCommand, run: seq<Execution>, step: Step, now: int, p: Id)
    requires IsScanRun(rules, command, run)
    ensures LeasedOnTime(Last(run), Apply(rules, Last(run), step, now), p, now)
  {
    hide ValidCommand, NewExecution, StepAt, PagesOk, CountersMatch, StatusOk, TreeOk, OutboxOk, Apply, NoneLeased;
    ScanRunValid(rules, command, run);
    var x := Last(run);
    match step
    case ClaimStep(q, owner, until) => ClaimOnTime(rules, x, q, owner, until, now, p);
    case CommitStep(q, owner, generation, result, ids, retryAt) =>
      CommitLeasesNone(rules, x, q, owner, generation, result, ids, retryAt, now);
      NoneOnTime(x, Apply(rules, x, step, now), p, now);
    case ReclaimStep(skipLeases, skipDeadline) =>
      ReclaimLeasesNone(x, skipLeases, skipDeadline, now);
      assert Apply(rules, x, step, now) == Reclaim(x, skipLeases, skipDeadline, now) by { ReclaimApplies(rules, x, skipLeases, skipDeadline, now); }
      NoneOnTime(x, Apply(rules, x, step, now), p, now);
    case _ =>
      OtherLeasesNone(rules, x, step, now);
      NoneOnTime(x, Apply(rules, x, step, now), p, now);
  }

  lemma ReclaimApplies(rules: UrlRules, x: Execution, skipLeases: bool, skipDeadline: bool, now: int)
    ensures Apply(rules, x, ReclaimStep(skipLeases, skipDeadline), now) == Reclaim(x, skipLeases, skipDeadline, now)
  {
    hide Reclaim;
  }

  lemma NoneOnTime(x: Execution, y: Execution, p: Id, now: int)
    requires NoneLeased(x, y)
    ensures LeasedOnTime(x, y, p, now)
  {}

  lemma ClaimOnTime(rules: UrlRules, x: Execution, q: Id, owner: Id, until: int, now: int, p: Id)
    ensures LeasedOnTime(x, Apply(rules, x, ClaimStep(q, owner, until), now), p, now)
  {
    if Claimable(x, q, now) {
      PublishedRows(ClaimRow(x, q, owner, until), now);
    }
    hide PublishProgress;
  }
}
