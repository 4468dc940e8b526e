/** What holds in every state and over every run of an accepted scan. */
module Crawl {
  import opened Common
  import opened Frontier
  import opened Counting
  import opened FrontierInvariant
  import opened EventLane
  import opened Termination
  import opened PageOutcomes

  // ------------------------------------------------------------ any position

  /** Position `i` of a scan run is the end of a scan run. */
  lemma Reached(rules: UrlRules, command: ScanCommand, run: seq<Execution>, i: nat)
    requires IsScanRun(rules, command, run) && i < |run|
    ensures Valid(rules, run[i])
  {
    hide Valid, ValidCommand;
    RunPrefix(rules, run, i + 1);
    assert run[..i + 1][0] == run[0];
    ScanRunValid(rules, command, run[..i + 1]);
  }

  lemma RunSuffix(rules: UrlRules, run: seq<Execution>, i: nat, j: nat)
    requires IsRun(rules, run) && i <= j < |run|
    ensures IsRun(rules, run[i..j + 1])
  {
    hide Next;
    var suffix := run[i..j + 1];
    forall k | 0 < k < |suffix| ensures StepAt(rules, suffix, k) {
      assert StepAt(rules, run, i + k);
    }
  }

  // ------------------------------------------------------------ conservation

  /** The counters cache the rows, split the discovered pages, and respect the command's limits. */
  lemma Conservation(rules: UrlRules, command: ScanCommand, run: seq<Execution>)
    requires IsScanRun(rules, command, run)
    ensures CountersMatch(Last(run))
    ensures var c := Last(run).counts;
      && c.queued + c.leased + c.persisting + c.succeeded + c.failed + c.skipped + c.cancelled
         == c.discovered <= command.maxPages
      && c.leased <= command.maxConcurrency
      && c.expected == c.published + c.persisting
  {
    hide ValidCommand, StatusOk, TreeOk, OutboxOk, Count;
    ScanRunValid(rules, command, run);
    RunCommand(rules, run);
    CountersSum(Last(run));
    AnalyticsConservation(Last(run));
  }

  // ------------------------------------------------------------ completeness

  /** Contains the seed and every target an accepted result reported for a member. */
  ghost predicate ClosedUnderReports(rules: UrlRules, x: Execution, urls: set<string>) {
    && x.seedUrl in urls
    && forall p, u {:trigger Reports(rules, x, p, u)} :: Reports(rules, x, p, u) && x.pages[p].url in urls ==> u in urls
  }

  /** An internal link that may be followed, and whose target is in scope. */
  predicate Follows(rules: UrlRules, host: string, link: Link, u: string) {
    link.isInternal && link.isFollowable && rules.normalize(link.target) == Some(u) && rules.inScope(u, host)
  }

  /** The accepted result of page `p` has such a link to `u`. */
  ghost predicate Reports(rules: UrlRules, x: Execution, p: Id, u: string) {
    && p in x.pages
    && x.pages[p].accepted.Some?
    && exists link :: link in x.pages[p].accepted.value.links && Follows(rules, x.host, link, u)
  }

  lemma ReportsLeads(rules: UrlRules, x: Execution, p: Id, u: string)
    requires p in x.pages && x.pages[p].accepted.Some?
    ensures Reports(rules, x, p, u) <==> LeadsTo(rules, x.host, x.pages[p].accepted.value.links, u)
  {
    var links := x.pages[p].accepted.value.links;
    forall k | 0 <= k < |links| ensures Follows(rules, x.host, links[k], u) <==> Target(rules, x.host, links[k]) == Some(u) {}
    if LeadsTo(rules, x.host, links, u) {
      var k :| 0 <= k < |links| && Target(rules, x.host, links[k]) == Some(u);
      assert links[k] in links;
    }
  }

  lemma {:induction false} PageInEveryClosedSet(rules: UrlRules, x: Execution, p: Id, urls: set<string>)
    requires TreeOk(rules, x) && p in x.pages && ClosedUnderReports(rules, x, urls)
    ensures x.pages[p].url in urls
    decreases x.pages[p].depth
  {
    if p != x.seed {
      assert Discovered(rules, x, p);
      var parent := x.pages[p].parent.value;
      PageInEveryClosedSet(rules, x, parent, urls);
      ReportsLeads(rules, x, parent, x.pages[p].url);
    }
  }

  /** Nothing is in the frontier that the seed and the reported links do not put there. */
  lemma FrontierIsLeast(rules: UrlRules, command: ScanCommand, run: seq<Execution>, urls: set<string>)
    requires IsScanRun(rules, command, run) && ClosedUnderReports(rules, Last(run), urls)
    ensures Urls(Last(run).pages) <= urls
  {
    hide ValidCommand, OutboxOk, StatusOk, CountersMatch, PagesOk, ClosedUnderReports;
    ScanRunValid(rules, command, run);
    forall u | u in Urls(Last(run).pages) ensures u in urls {
      var p :| p in Last(run).pages && Last(run).pages[p].url == u;
      PageInEveryClosedSet(rules, Last(run), p, urls);
    }
  }

  lemma OnlySucceeded(rules: UrlRules, x: Execution, p: Id)
    requires Valid(rules, x) && x.status == Completed && p in x.pages
    ensures x.pages[p].status == PageSucceeded
  {
    hide TreeOk, OutboxOk, PagesOk;
    CountWitness(x.pages, p);
  }

  /** Short of both limits, every target of an accepted result is in the frontier. */
  lemma FrontierClosed(rules: UrlRules, x: Execution)
    requires Valid(rules, x) && x.counts.discovered < x.maxPages
    requires forall p :: p in x.pages ==> x.pages[p].depth < x.maxDepth
    ensures ClosedUnderReports(rules, x, Urls(x.pages))
  {
    hide OutboxOk, CountersMatch, PagesOk, StatusOk;
    assert x.pages[x.seed].url in Urls(x.pages);
    forall p, u | Reports(rules, x, p, u) ensures u in Urls(x.pages) {
      ReportsLeads(rules, x, p, u);
      assert Followed(rules, x, p);
    }
  }

  /**
   * A completed scan that met neither its page budget nor its depth limit has
   * visited exactly the least set that contains the seed and is closed under
   * the links its accepted results reported, and has fetched every page of it.
   */
  lemma FrontierComplete(rules: UrlRules, command: ScanCommand, run: seq<Execution>)
    requires IsScanRun(rules, command, run)
    requires Last(run).status == Completed && Last(run).counts.discovered < command.maxPages
    requires forall p :: p in Last(run).pages ==> Last(run).pages[p].depth < command.maxDepth
    ensures ClosedUnderReports(rules, Last(run), Urls(Last(run).pages))
    ensures forall urls :: ClosedUnderReports(rules, Last(run), urls) ==> Urls(Last(run).pages) <= urls
    ensures forall p :: p in Last(run).pages ==>
      Last(run).pages[p].status == PageSucceeded && Last(run).pages[p].accepted.Some? && Fetched(Last(run).pages[p].accepted.value)
  {
    var x := Last(run);
    hide Valid, IsScanRun, ClosedUnderReports;
    ScanRunValid(rules, command, run);
    assert x.maxPages == command.maxPages && x.maxDepth == command.maxDepth by { ScanLimits(rules, command, run); }
    forall p | p in x.pages ensures x.pages[p].status == PageSucceeded && x.pages[p].accepted.Some? && Fetched(x.pages[p].accepted.value) {
      OnlySucceeded(rules, x, p);
      OutcomeTold(rules, command, run, p);
    }
    FrontierClosed(rules, x);
    forall urls | ClosedUnderReports(rules, x, urls) ensures Urls(x.pages) <= urls {
      FrontierIsLeast(rules, command, run, urls);
    }
  }

  lemma ScanLimits(rules: UrlRules, command: ScanCommand, run: seq<Execution>)
    requires IsScanRun(rules, command, run)
    ensures Last(run).maxPages == command.maxPages && Last(run).maxDepth == command.maxDepth
  {
    RunCommand(rules, run);
  }

  // ------------------------------------------------------------- parent chain

  /** A path of parent links from the seed to `p`. */
  ghost predicate ParentChain(x: Execution, path: seq<Id>, p: Id) {
    && |path| > 0 && path[0] == x.seed && path[|path| - 1] == p
    && (forall i :: 0 <= i < |path| ==> path[i] in x.pages && x.pages[path[i]].depth == i)
    && (forall i :: 0 < i < |path| ==> x.pages[path[i]].parent == Some(path[i - 1]))
  }

  lemma {:induction false} FindChain(rules: UrlRules, x: Execution, p: Id) returns (path: seq<Id>)
    requires TreeOk(rules, x) && p in x.pages
    ensures ParentChain(x, path, p)
    decreases x.pages[p].depth
  {
    if p == x.seed {
      path := [p];
    } else {
      assert Discovered(rules, x, p);
      path := FindChain(rules, x, x.pages[p].parent.value);
      path := path + [p];
    }
  }

  /** Every page hangs on a chain of parents as long as its depth, within the depth limit. */
  lemma ChainToSeed(rules: UrlRules, command: ScanCommand, run: seq<Execution>, p: Id)
    requires IsScanRun(rules, command, run) && p in Last(run).pages
    ensures exists path :: ParentChain(Last(run), path, p) && |path| == Last(run).pages[p].depth + 1
    ensures Last(run).pages[p].depth <= command.maxDepth
  {
    var x := Last(run);
    assert SameCommand(run[0], x) by { RunCommand(rules, run); }
    assert x.maxDepth == command.maxDepth;
    assert TreeOk(rules, x) by { ScanRunValid(rules, command, run); }
    hide IsScanRun;
    var path := FindChain(rules, x, p);
    assert p != x.seed ==> Discovered(rules, x, p);
  }

  // ------------------------------------------------------------ terminal states

  /** Terminal exactly when drained; the public status is then the stored one. */
  lemma TerminalIffQuiescent(rules: UrlRules, command: ScanCommand, run: seq<Execution>)
    requires IsScanRun(rules, command, run)
    ensures var x := Last(run);
      && (Terminal(x.status) <==> x.counts.queued == 0 && x.counts.leased == 0 && x.counts.persisting == 0)
      && Snapshot(x).status == x.status
  {
    hide ValidCommand, TreeOk, OutboxOk, CountersMatch, PagesOk;
    ScanRunValid(rules, command, run);
  }

  /** The same scan, up to the delivery columns of its events. */
  ghost predicate OnlyDelivery(x: Execution, y: Execution) {
    && y == x.(outbox := y.outbox) && |y.outbox| == |x.outbox|
    && forall i :: 0 <= i < |x.outbox| ==>
         y.outbox[i].version == x.outbox[i].version && y.outbox[i].payload == x.outbox[i].payload
  }

  lemma AllDelivered(rules: UrlRules, x: Execution, p: Id)
    requires FrontierOk(rules, x) && Terminal(x.status)
    ensures p in x.pages ==> x.pages[p].status != PageQueued && x.pages[p].status != PageLeased && x.pages[p].status != PagePersisting
    ensures p in x.batches ==> x.batches[p].status == Delivered
  {
    hide TreeOk;
    if p in x.pages {
      CountWitness(x.pages, p);
    }
  }

  lemma TerminalBatches(rules: UrlRules, x: Execution, now: int)
    requires FrontierOk(rules, x) && Terminal(x.status)
    ensures ReclaimDeliveries(x, now).batches == x.batches
  {
    hide FrontierOk;
    forall p | p in x.batches ensures x.batches[p].status == Delivered { AllDelivered(rules, x, p); }
  }

  lemma NothingLeased(x: Execution)
    requires StatusOk(x) && Terminal(x.status)
    ensures x.counts.leased == 0
  {}

  lemma TerminalReclaim(rules: UrlRules, x: Execution, skipLeases: bool, skipDeadline: bool, now: int)
    requires FrontierOk(rules, x) && Terminal(x.status)
    ensures OnlyDelivery(x, Reclaim(x, skipLeases, skipDeadline, now))
  {
    hide FrontierOk, CountersMatch, PagesOk, StatusOk, TreeOk, ReclaimRow;
    TerminalBatches(rules, x, now);
    FrontierParts(rules, x);
    NothingLeased(x);
    ReclaimTerminal(x, skipLeases, skipDeadline, now);
  }

  /** A terminal scan has no page or row left that a crawl transaction could work on. */
  lemma TerminalBlocks(rules: UrlRules, x: Execution, step: Step, now: int)
    requires FrontierOk(rules, x) && Terminal(x.status)
    requires !step.ReclaimStep? && !step.ClaimEventStep? && !step.CompleteEventStep? && !step.RetryEventStep?
    ensures !Enabled(x, step, now)
  {
    match step
    case ExtendStep(p, _, _, _) => AllDelivered(rules, x, p);
    case CommitStep(p, _, _, _, _, _) => AllDelivered(rules, x, p);
    case ClaimBatchStep(p, _, _) => AllDelivered(rules, x, p);
    case RetryBatchStep(p, _, _) => AllDelivered(rules, x, p);
    case AnalyticsStep(p, _) => AllDelivered(rules, x, p);
    case _ =>
      hide FrontierOk;
  }

  /** Whatever runs on a terminal scan, only event delivery goes on. */
  lemma TerminalStep(rules: UrlRules, x: Execution, step: Step, now: int)
    requires Valid(rules, x) && Terminal(x.status)
    ensures OnlyDelivery(x, Apply(rules, x, step, now))
  {
    hide Valid, FrontierOk, OutboxOk, Reclaim, OnlyDelivery, Enabled, Cancel, CompleteAnalytics, CommitResult, ClaimPage, ClaimBatch, RetryBatch, ExtendLease;
    ValidParts(rules, x);
    SameDelivery(x);
    match step
    case ReclaimStep(skipLeases, skipDeadline) => TerminalReclaim(rules, x, skipLeases, skipDeadline, now);
    case ClaimEventStep(_, _, _) => DeliveryOnly(rules, x, step, now);
    case CompleteEventStep(_, _) => DeliveryOnly(rules, x, step, now);
    case RetryEventStep(_, _, _) => DeliveryOnly(rules, x, step, now);
    case _ => TerminalBlocks(rules, x, step, now);
  }

  lemma SameDelivery(x: Execution)
    ensures OnlyDelivery(x, x)
  {}

  lemma DeliveryOnly(rules: UrlRules, x: Execution, step: Step, now: int)
    requires step.ClaimEventStep? || step.CompleteEventStep? || step.RetryEventStep?
    ensures OnlyDelivery(x, Apply(rules, x, step, now))
  {}

  lemma OnlyDeliveryChain(x: Execution, y: Execution, z: Execution)
    requires OnlyDelivery(x, y) && OnlyDelivery(y, z)
    ensures OnlyDelivery(x, z)
  {}

  lemma {:induction false} TerminalSuffix(rules: UrlRules, run: seq<Execution>)
    requires IsRun(rules, run) && Valid(rules, run[0]) && Terminal(run[0].status)
    ensures OnlyDelivery(run[0], Last(run))
  {
    hide Valid, Apply;
    if |run| > 1 {
      var init := run[..|run| - 1];
      RunStep(rules, run);
      TerminalSuffix(rules, init);
      RunKeepsValid(rules, init);
      var step, now :| Last(run) == Apply(rules, Last(init), step, now);
      TerminalStep(rules, Last(init), step, now);
      OnlyDeliveryChain(run[0], Last(init), Last(run));
    } else {
      SameDelivery(run[0]);
    }
  }

  /** Terminal states are absorbing. */
  lemma TerminalAbsorbs(rules: UrlRules, command: ScanCommand, run: seq<Execution>, i: nat, j: nat)
    requires IsScanRun(rules, command, run) && i <= j < |run| && Terminal(run[i].status)
    ensures OnlyDelivery(run[i], run[j])
  {
    hide Valid, StepAt, ValidCommand, OnlyDelivery;
    Reached(rules, command, run, i);
    RunSuffix(rules, run, i, j);
    TerminalSuffix(rules, run[i..j + 1]);
  }

  // -------------------------------------------------------------- cancellation

  predicate Cancelling(x: Execution) {
    x.status == CancelRequested || x.status == Cancelled
  }

  /** No page waits or is being fetched. */
  ghost predicate NothingOpen(x: Execution) {
    forall p :: p in x.pages ==> x.pages[p].status != PageQueued && x.pages[p].status != PageLeased
  }

  lemma CancellingIsIdle(rules: UrlRules, x: Execution)
    requires Valid(rules, x) && Cancelling(x)
    ensures NothingOpen(x)
  {
    hide TreeOk, OutboxOk, PagesOk;
    forall p | p in x.pages ensures x.pages[p].status != PageQueued && x.pages[p].status != PageLeased {
      CountWitness(x.pages, p);
    }
  }

  ghost predicate StillCancelling(x: Execution, y: Execution) {
    Cancelling(y) && y.pages.Keys == x.pages.Keys
  }

  lemma CancellingReclaimRow(x: Execution, skipLeases: bool, now: int)
    requires Cancelling(x)
    ensures var a := ReclaimDeliveries(x, now);
      var b := if skipLeases then a else ReclaimLeases(a, now);
      StillCancelling(x, b) && ReclaimDeadline(b, now) == b
  {}

  lemma CancellingReclaim(x: Execution, skipLeases: bool, skipDeadline: bool, now: int)
    requires Cancelling(x)
    ensures StillCancelling(x, Reclaim(x, skipLeases, skipDeadline, now))
  {
    var a := ReclaimDeliveries(x, now);
    var b := if skipLeases then a else ReclaimLeases(a, now);
    CancellingReclaimRow(x, skipLeases, now);
    hide ReclaimDeliveries, ReclaimLeases, ReclaimDeadline, Snapshot, Throttled;
    assert StillCancelling(x, Terminalize(b));
    assert Terminalize(b) == ReclaimRow(x, skipLeases, skipDeadline, now);
    hide ReclaimRow, Terminalize;
  }

  lemma CancellingAnalytics(x: Execution, p: Id, now: int)
    requires x.status == CancelRequested && p in x.batches && p in x.pages && x.pages[p].pending.Some?
    ensures StillCancelling(x, CompleteAnalytics(x, p, now))
  {
    hide Snapshot, Throttled;
  }

  lemma CancellingAgain(x: Execution, version: int, now: int)
    ensures StillCancelling(x, Cancel(x, version, now))
  {
    hide Snapshot, Throttled;
  }

  /** A terminal scan has no page to persist. */
  lemma PersistingIsOpen(rules: UrlRules, x: Execution, p: Id)
    requires Valid(rules, x) && p in x.pages && x.pages[p].status == PagePersisting
    ensures !Terminal(x.status)
  {
    hide Valid, FrontierOk, OutboxOk;
    ValidParts(rules, x);
    if Terminal(x.status) {
      AllDelivered(rules, x, p);
    }
  }

  lemma CancellingDelivery(rules: UrlRules, x: Execution, step: Step, now: int)
    requires Cancelling(x)
    requires step.ClaimBatchStep? || step.RetryBatchStep? || step.ClaimEventStep? || step.CompleteEventStep? || step.RetryEventStep?
    ensures StillCancelling(x, Apply(rules, x, step, now))
  {
    DeliveryPages(rules, x, step, now);
    hide Apply;
  }

  lemma StillItself(x: Execution)
    requires Cancelling(x)
    ensures StillCancelling(x, x)
  {}

  /** No page is leased, so no claim is held and none can be extended or committed. */
  lemma CancellingPages(rules: UrlRules, x: Execution, step: Step, now: int)
    requires Cancelling(x) && NothingOpen(x)
    requires step.ClaimStep? || step.ExtendStep? || step.CommitStep?
    ensures !Enabled(x, step, now)
  {}

  lemma CancellingStep(rules: UrlRules, x: Execution, step: Step, now: int)
    requires Valid(rules, x) && Cancelling(x)
    ensures StillCancelling(x, Apply(rules, x, step, now))
  {
    CancellingIsIdle(rules, x);
    StillItself(x);
    hide Valid, Reclaim, Cancel, CompleteAnalytics, NothingOpen, StillCancelling;
    if Enabled(x, step, now) {
      match step
      case ClaimStep(_, _, _) => CancellingPages(rules, x, step, now);
      case ExtendStep(_, _, _, _) => CancellingPages(rules, x, step, now);
      case CommitStep(_, _, _, _, _, _) => CancellingPages(rules, x, step, now);
      case ReclaimStep(skipLeases, skipDeadline) => CancellingReclaim(x, skipLeases, skipDeadline, now);
      case AnalyticsStep(p, owner) =>
        PersistingIsOpen(rules, x, p);
        CancellingAnalytics(x, p, now);
      case CancelStep(version) => CancellingAgain(x, version, now);
      case _ => CancellingDelivery(rules, x, step, now);
    }
  }

  lemma {:induction false} CancellingSuffix(rules: UrlRules, run: seq<Execution>)
    requires IsRun(rules, run) && Valid(rules, run[0]) && Cancelling(run[0])
    ensures StillCancelling(run[0], Last(run))
  {
    hide Valid, Apply;
    if |run| > 1 {
      var init := run[..|run| - 1];
      RunStep(rules, run);
      CancellingSuffix(rules, init);
      RunKeepsValid(rules, init);
      var step, now :| Last(run) == Apply(rules, Last(init), step, now);
      CancellingStep(rules, Last(init), step, now);
    }
  }

  /** Once a cancellation is applied the scan never queues, leases or discovers a page again. */
  lemma CancellationIsFinal(rules: UrlRules, command: ScanCommand, run: seq<Execution>, i: nat, j: nat)
    requires IsScanRun(rules, command, run) && i <= j < |run| && Cancelling(run[i])
    ensures Cancelling(run[j]) && NothingOpen(run[j]) && run[j].pages.Keys == run[i].pages.Keys
  {
    hide Valid, StepAt, ValidCommand, NothingOpen;
    Reached(rules, command, run, i);
    Reached(rules, command, run, j);
    RunSuffix(rules, run, i, j);
    CancellingSuffix(rules, run[i..j + 1]);
    CancellingIsIdle(rules, run[j]);
  }

  // ---------------------------------------------------------------- event lane

  /** At most one event of a scan is out for delivery, and delivery is a prefix of the versions. */
  lemma OrderedOutbox(rules: UrlRules, command: ScanCommand, run: seq<Execution>, i: nat, j: nat)
    requires IsScanRun(rules, command, run) && i < j < |Last(run).outbox|
    ensures Last(run).outbox[i].version < Last(run).outbox[j].version <= Last(run).progressVersion
    ensures Last(run).outbox[j].status == Claimed || Last(run).outbox[j].status == Delivered ==> Last(run).outbox[i].status == Delivered
  {
    hide ValidCommand, FrontierOk, TerminalLast;
    ScanRunValid(rules, command, run);
  }

  /** Of the events of one scan at most one can be claimed at a time, so a claimed batch holds at most one per scan. */
  lemma OneClaimable(rules: UrlRules, command: ScanCommand, run: seq<Execution>, i: nat, j: nat, now: int)
    requires IsScanRun(rules, command, run)
    requires EventClaimable(Last(run).outbox, i, now) && EventClaimable(Last(run).outbox, j, now)
    ensures i == j
  {
    hide ValidCommand, FrontierOk, TerminalLast;
    ScanRunValid(rules, command, run);
    var outbox := Last(run).outbox;
    assert outbox[i].version <= outbox[j].version && outbox[j].version <= outbox[i].version;
  }
}
