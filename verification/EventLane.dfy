/** The event lane of a scan: versions rise, delivery is a prefix, the last terminal snapshot is exact. */
module EventLane {
  import opened Common
  import opened Frontier
  import opened FrontierInvariant

  /** What the Control Plane insists on when it reads a snapshot. */
  ghost predicate PayloadOk(payload: Payload, maxPages: nat) {
    && payload.status != Queued && payload.status != Indexing
    && 0 <= payload.queued && 0 <= payload.succeeded && 0 <= payload.failed
    && payload.processed == payload.succeeded + payload.failed
    && payload.queued + payload.processed == payload.discovered <= maxPages
    && 0 <= payload.published <= payload.expected <= payload.discovered
  }

  ghost predicate EventOk(event: Event, version: nat, maxPages: nat) {
    && 0 < event.version <= version
    && PayloadOk(event.payload, maxPages)
    && (event.lease.Some? <==> event.status == Claimed)
    && (event.status == Claimed || event.status == Delivered ==> event.attempts > 0)
  }

  /** An event is only ever claimed once everything before it is delivered. */
  ghost predicate LaneOk(outbox: seq<Event>) {
    && (forall i, j :: 0 <= i < j < |outbox| ==> outbox[i].version < outbox[j].version)
    && (forall i, j :: 0 <= i < j < |outbox| && outbox[j].attempts > 0 ==> outbox[i].status == Delivered)
  }

  ghost predicate TerminalLast(x: Execution) {
    && (forall i :: 0 <= i < |x.outbox| - 1 ==> !Terminal(x.outbox[i].payload.status))
    && (x.outbox != [] ==>
          var last := x.outbox[|x.outbox| - 1];
          && last.payload.status == x.status
          && (Terminal(x.status) ==> last.version == x.progressVersion && last.payload == Snapshot(x)))
  }

  ghost predicate OutboxOk(x: Execution) {
    && LaneOk(x.outbox)
    && (forall i :: 0 <= i < |x.outbox| ==> EventOk(x.outbox[i], x.progressVersion, x.maxPages))
    && (x.outbox == [] <==> x.status == Queued)
    && (x.outbox != [] ==> x.outbox[0].payload.status != CancelRequested)
    && TerminalLast(x)
  }

  ghost predicate Valid(rules: UrlRules, x: Execution) {
    FrontierOk(rules, x) && OutboxOk(x)
  }

  lemma ValidParts(rules: UrlRules, x: Execution)
    requires Valid(rules, x)
    ensures FrontierOk(rules, x) && OutboxOk(x)
  {}

  /** An event in order; a terminal one is the last and tells the final state. */
  lemma EventAt(x: Execution, i: nat)
    requires OutboxOk(x) && i < |x.outbox|
    ensures EventOk(x.outbox[i], x.progressVersion, x.maxPages)
    ensures Terminal(x.outbox[i].payload.status) ==>
      && i == |x.outbox| - 1 && Terminal(x.status)
      && x.outbox[i].version == x.progressVersion && x.outbox[i].payload == Snapshot(x)
  {
    hide LaneOk, EventOk, Snapshot;
  }

  lemma FrontierParts(rules: UrlRules, x: Execution)
    requires FrontierOk(rules, x)
    ensures CountersMatch(x) && PagesOk(x) && StatusOk(x) && TreeOk(rules, x)
  {}

  /** Every snapshot of an execution in order passes the consumer's checks and tells the stored status. */
  lemma SnapshotOk(rules: UrlRules, x: Execution)
    requires FrontierOk(rules, x) && x.status != Queued
    ensures PayloadOk(Snapshot(x), x.maxPages) && Snapshot(x).status == x.status
  {
    CountersSum(x);
    AnalyticsConservation(x);
    SubsetSize(x.batches.Keys, x.pages.Keys);
  }

  /** Publishing after a row change keeps the lane. */
  lemma PublishKeeps(x: Execution, y: Execution, now: int)
    requires OutboxOk(x) && !Terminal(x.status)
    requires y.outbox == x.outbox && y.maxPages == x.maxPages && y.progressVersion > x.progressVersion
    requires y.status != Queued && (y.status == CancelRequested ==> x.status != Queued)
    requires PayloadOk(Snapshot(y), y.maxPages) && Snapshot(y).status == y.status
    ensures OutboxOk(PublishProgress(y, now))
  {
    hide OutboxOk, Snapshot, PayloadOk, Throttled;
    if PublishProgress(y, now).outbox == y.outbox {
      HeldBack(x, y, now);
    } else {
      LaneExtended(x, y, now);
    }
  }

  /** A snapshot that is published joins the lane at its end. */
  lemma LaneExtended(x: Execution, y: Execution, now: int)
    requires OutboxOk(x) && !Terminal(x.status)
    requires y.outbox == x.outbox && y.maxPages == x.maxPages && y.progressVersion > x.progressVersion
    requires y.status != Queued && (y.status == CancelRequested ==> x.status != Queued)
    requires PayloadOk(Snapshot(y), y.maxPages) && Snapshot(y).status == y.status
    ensures var next := Event(y.progressVersion, Snapshot(y), now, Pending, 0, now, None);
      OutboxOk(y.(outbox := y.outbox + [next]))
  {
    var next := Event(y.progressVersion, Snapshot(y), now, Pending, 0, now, None);
    var z := y.(outbox := y.outbox + [next]);
    assert Snapshot(z) == Snapshot(y);
    hide Snapshot, PayloadOk, LaneOk;
    assert EventOk(next, z.progressVersion, z.maxPages);
    assert forall i :: 0 <= i < |x.outbox| ==> EventOk(x.outbox[i], x.progressVersion, x.maxPages);
    LaneGrows(x.outbox, next);
  }

  /** A snapshot that is held back leaves the lane as it was. */
  lemma HeldBack(x: Execution, y: Execution, now: int)
    requires OutboxOk(x) && !Terminal(x.status)
    requires y.outbox == x.outbox && y.maxPages == x.maxPages && y.progressVersion > x.progressVersion
    requires y.status != Queued && Snapshot(y).status == y.status
    requires PublishProgress(y, now).outbox == y.outbox
    ensures PublishProgress(y, now) == y && OutboxOk(y)
  {
    hide Snapshot, PayloadOk, LaneOk;
    assert Throttled(y, now);
  }

  lemma LaneGrows(outbox: seq<Event>, next: Event)
    requires LaneOk(outbox) && next.attempts == 0
    requires forall i :: 0 <= i < |outbox| ==> outbox[i].version < next.version
    ensures LaneOk(outbox + [next])
  {}

  lemma PublishFrame(rules: UrlRules, y: Execution, now: int)
    requires FrontierOk(rules, y)
    ensures FrontierOk(rules, PublishProgress(y, now))
  {
    hide CountersMatch, PagesOk, TreeOk, Snapshot, Throttled;
    RowsFrame(rules, y, PublishProgress(y, now));
  }

  /** The common end of every transaction that changes counters. */
  lemma CommitRows(rules: UrlRules, x: Execution, y: Execution, now: int)
    requires OutboxOk(x) && !Terminal(x.status) && FrontierOk(rules, y)
    requires y.outbox == x.outbox && y.maxPages == x.maxPages && y.progressVersion > x.progressVersion
    requires y.status != Queued && (y.status == CancelRequested ==> x.status != Queued)
    ensures Valid(rules, PublishProgress(y, now))
  {
    SnapshotOk(rules, y);
    PublishKeeps(x, y, now);
    PublishFrame(rules, y, now);
  }

  lemma OutboxFrame(x: Execution, y: Execution)
    requires OutboxOk(x) && y == x.(pages := y.pages, batches := y.batches)
    ensures OutboxOk(y)
  {
    assert Snapshot(y) == Snapshot(x);
  }

  // ----------------------------------------------------------- event delivery

  lemma DeliveryLane(outbox: seq<Event>, i: nat, event: Event)
    requires LaneOk(outbox) && i < |outbox| && event.version == outbox[i].version
    requires event.attempts > 0 ==> forall j :: 0 <= j < i ==> outbox[j].status == Delivered
    requires event.status == Delivered || outbox[i].status != Delivered
    ensures LaneOk(outbox[i := event])
  {}

  lemma DeliveryOutbox(x: Execution, i: nat, event: Event)
    requires OutboxOk(x) && i < |x.outbox| && LaneOk(x.outbox[i := event])
    requires event.version == x.outbox[i].version && event.payload == x.outbox[i].payload
    requires EventOk(event, x.progressVersion, x.maxPages)
    ensures OutboxOk(x.(outbox := x.outbox[i := event]))
  {
    assert Snapshot(x.(outbox := x.outbox[i := event])) == Snapshot(x);
  }

  /** Changing the delivery columns of one event. */
  lemma DeliveryKeeps(rules: UrlRules, x: Execution, i: nat, event: Event)
    requires Valid(rules, x) && i < |x.outbox|
    requires event.version == x.outbox[i].version && event.payload == x.outbox[i].payload
    requires EventOk(event, x.progressVersion, x.maxPages)
    requires event.attempts > 0 ==> forall j :: 0 <= j < i ==> x.outbox[j].status == Delivered
    requires event.status == Delivered || x.outbox[i].status != Delivered
    ensures Valid(rules, x.(outbox := x.outbox[i := event]))
  {
    DeliveryLane(x.outbox, i, event);
    DeliveryOutbox(x, i, event);
    RowsFrame(rules, x, x.(outbox := x.outbox[i := event]));
  }

  /** What may be claimed is the first event not yet delivered. */
  lemma ClaimableHead(x: Execution, i: nat, now: int)
    requires LaneOk(x.outbox) && EventClaimable(x.outbox, i, now)
    ensures forall j :: 0 <= j < i ==> x.outbox[j].status == Delivered
  {
    forall j | 0 <= j < i ensures x.outbox[j].status == Delivered {
      assert x.outbox[j].version < x.outbox[i].version;
    }
  }

  lemma ClaimEventKeeps(rules: UrlRules, x: Execution, i: nat, owner: Id, until: int, now: int)
    requires Valid(rules, x) && EventClaimable(x.outbox, i, now)
    ensures Valid(rules, ClaimEvent(x, i, owner, until))
  {
    ClaimableHead(x, i, now);
    hide FrontierOk, PayloadOk, LaneOk, EventClaimable;
    DeliveryKeeps(rules, x, i, ClaimEvent(x, i, owner, until).outbox[i]);
  }

  lemma CompleteEventKeeps(rules: UrlRules, x: Execution, i: nat, owner: Id)
    requires Valid(rules, x) && HoldsEvent(x.outbox, i, owner)
    ensures Valid(rules, CompleteEvent(x, i))
  {
    DeliveryKeeps(rules, x, i, CompleteEvent(x, i).outbox[i]);
  }

  lemma RetryEventKeeps(rules: UrlRules, x: Execution, i: nat, owner: Id, retryAt: int)
    requires Valid(rules, x) && HoldsEvent(x.outbox, i, owner)
    ensures Valid(rules, RetryEvent(x, i, retryAt))
  {
    DeliveryKeeps(rules, x, i, RetryEvent(x, i, retryAt).outbox[i]);
  }

  ghost predicate SameEvents(a: seq<Event>, b: seq<Event>) {
    |b| == |a| && forall i :: 0 <= i < |a| ==>
      && b[i].version == a[i].version && b[i].payload == a[i].payload && b[i].attempts == a[i].attempts
      && (b[i].status == Delivered <==> a[i].status == Delivered)
  }

  lemma SameEventsLane(a: seq<Event>, b: seq<Event>)
    requires LaneOk(a) && SameEvents(a, b)
    ensures LaneOk(b)
  {}

  lemma ReclaimDeliveriesLane(x: Execution, now: int)
    requires OutboxOk(x)
    ensures OutboxOk(ReclaimDeliveries(x, now))
  {
    var y := ReclaimDeliveries(x, now);
    SameEventsLane(x.outbox, y.outbox);
    assert Snapshot(y) == Snapshot(x);
  }

  /** Reclamation changes the status only to a terminal one, and bumps the version when it changes anything else. */
  lemma ReclaimStatus(x: Execution, skipLeases: bool, skipDeadline: bool, now: int)
    requires CountersMatch(x) && StatusOk(x) && StatusOk(ReclaimRow(x, skipLeases, skipDeadline, now))
    ensures var y := ReclaimRow(x, skipLeases, skipDeadline, now);
      && y.progressVersion >= x.progressVersion && y.outbox == ReclaimDeliveries(x, now).outbox && y.maxPages == x.maxPages
      && (y.status == x.status || (Terminal(y.status) && !Terminal(x.status)))
      && (y.progressVersion != x.progressVersion ==> y.status != Queued && !Terminal(x.status))
      && (y.progressVersion == x.progressVersion ==> y == ReclaimDeliveries(x, now))
  {
    if Terminal(x.status) {
      ReclaimTerminal(x, skipLeases, skipDeadline, now);
    } else {
      hide StatusOk;
      var a := ReclaimDeliveries(x, now);
      if a.counts.leased == 0 {
        assert ExpiredSet(a, now) <= WithStatus(x.pages, PageLeased);
      }
    }
  }

  lemma ReclaimValid(rules: UrlRules, x: Execution, skipLeases: bool, skipDeadline: bool, now: int)
    requires Valid(rules, x)
    ensures Valid(rules, Reclaim(x, skipLeases, skipDeadline, now))
  {
    hide CountersMatch, PagesOk, TreeOk, StatusOk, ReclaimRow;
    var a := ReclaimDeliveries(x, now);
    var y := ReclaimRow(x, skipLeases, skipDeadline, now);
    ReclaimDeliveriesLane(x, now);
    ReclaimKeeps(rules, x, skipLeases, skipDeadline, now);
    ReclaimStatus(x, skipLeases, skipDeadline, now);
    if y.progressVersion != x.progressVersion {
      CommitRows(rules, a, y, now);
    }
  }

  // --------------------------------------------------------------- all steps

  /** A scan with a leased page is under way. */
  lemma LeasedIsOpen(rules: UrlRules, x: Execution, p: Id)
    requires FrontierOk(rules, x) && p in x.pages && x.pages[p].status == PageLeased
    ensures x.status == Running
  {
    hide TreeOk, PagesOk;
    CountWitness(x.pages, p);
  }

  lemma CommitTarget(rules: UrlRules, x: Execution, p: Id, result: PageResult, ids: seq<Id>, retryAt: int, now: int)
    requires p in x.pages && |result.links| <= |ids| && Storable(x, p, result)
    ensures if ShouldRetryPage(result, x.pages[p].attempts)
      then x.pages[p].attempts < MAX_ATTEMPTS && CommitResult(rules, x, p, result, ids, retryAt, now) == PublishProgress(RequeueRow(x, p, retryAt), now)
      else Settles(result, x.pages[p].attempts)
           && CommitResult(rules, x, p, result, ids, retryAt, now) == PublishProgress(StageRow(rules, x, p, result, ids, now), now)
  {
    hide PublishProgress, RequeueRow, StageRow;
  }

  lemma CommitKeeps(rules: UrlRules, x: Execution, p: Id, result: PageResult, ids: seq<Id>, retryAt: int, now: int)
    requires Valid(rules, x)
    requires p in x.pages && x.pages[p].status == PageLeased && FreshIds(x.pages, ids) && |result.links| <= |ids|
    requires Storable(x, p, result)
    ensures Valid(rules, CommitResult(rules, x, p, result, ids, retryAt, now))
  {
    hide ShouldRetryPage, FrontierOk, OutboxOk, CommitResult;
    LeasedIsOpen(rules, x, p);
    CommitTarget(rules, x, p, result, ids, retryAt, now);
    ValidParts(rules, x);
    hide PublishProgress, InsertPages, WithStatus, StagedPage, NewUrls;
    if ShouldRetryPage(result, x.pages[p].attempts) {
      RequeueKeeps(rules, x, p, retryAt);
      CommitRows(rules, x, RequeueRow(x, p, retryAt), now);
    } else {
      StageKeeps(rules, x, p, result, ids, now);
      CommitRows(rules, x, StageRow(rules, x, p, result, ids, now), now);
    }
  }

  lemma AnalyticsValid(rules: UrlRules, x: Execution, p: Id, now: int)
    requires Valid(rules, x) && p in x.pages && x.pages[p].status == PagePersisting
    ensures Valid(rules, CompleteAnalytics(x, p, now))
  {
    CountWitness(x.pages, p);
    AnalyticsKeeps(rules, x, p);
    CommitRows(rules, x, AnalyticsRow(x, p), now);
  }

  lemma ClaimValid(rules: UrlRules, x: Execution, p: Id, owner: Id, until: int, now: int)
    requires Valid(rules, x) && Claimable(x, p, now)
    ensures Valid(rules, ClaimPage(x, p, owner, until, now))
  {
    CountWitness(x.pages, p);
    ClaimKeeps(rules, x, p, owner, until, now);
    CommitRows(rules, x, ClaimRow(x, p, owner, until), now);
  }

  lemma ExtendValid(rules: UrlRules, x: Execution, p: Id, until: int)
    requires Valid(rules, x) && p in x.pages && x.pages[p].lease.Some?
    ensures Valid(rules, ExtendLease(x, p, until))
  {
    ExtendKeeps(rules, x, p, until);
    OutboxFrame(x, ExtendLease(x, p, until));
  }

  lemma BatchValid(rules: UrlRules, x: Execution, p: Id, batch: Batch)
    requires Valid(rules, x) && p in x.batches
    requires x.batches[p].status != Delivered && batch.status != Delivered
    requires batch.lease.Some? <==> batch.status == Claimed
    ensures Valid(rules, x.(batches := x.batches[p := batch]))
  {
    BatchKeeps(rules, x, p, batch);
    OutboxFrame(x, x.(batches := x.batches[p := batch]));
  }

  lemma CancelValid(rules: UrlRules, x: Execution, version: int, now: int)
    requires Valid(rules, x) && !Terminal(x.status)
    ensures Valid(rules, Cancel(x, version, now))
  {
    CancelKeeps(rules, x, version);
    CommitRows(rules, x, CancelRow(x, version), now);
  }

  lemma BatchStepKeepsValid(rules: UrlRules, x: Execution, step: Step, now: int)
    requires Valid(rules, x) && Enabled(x, step, now) && (step.ClaimBatchStep? || step.RetryBatchStep?)
    ensures Valid(rules, Apply(rules, x, step, now))
  {
    var p := step.page;
    var batch := if step.ClaimBatchStep? then ClaimBatch(x, p, step.owner, step.until).batches[p]
                 else RetryBatch(x, p, step.retryAt).batches[p];
    BatchValid(rules, x, p, batch);
  }

  lemma EventStepKeepsValid(rules: UrlRules, x: Execution, step: Step, now: int)
    requires Valid(rules, x) && Enabled(x, step, now)
    requires step.ClaimEventStep? || step.CompleteEventStep? || step.RetryEventStep?
    ensures Valid(rules, Apply(rules, x, step, now))
  {
    hide Valid;
    match step
    case ClaimEventStep(i, owner, until) => ClaimEventKeeps(rules, x, i, owner, until, now);
    case CompleteEventStep(i, owner) => CompleteEventKeeps(rules, x, i, owner);
    case RetryEventStep(i, owner, retryAt) => RetryEventKeeps(rules, x, i, owner, retryAt);
  }

  /** Every transaction keeps the whole invariant. */
  lemma StepKeepsValid(rules: UrlRules, x: Execution, step: Step, now: int)
    requires Valid(rules, x)
    ensures Valid(rules, Apply(rules, x, step, now))
  {
    hide FrontierOk, OutboxOk;
    if Enabled(x, step, now) {
      match step
      case ClaimStep(p, owner, until) => ClaimValid(rules, x, p, owner, until, now);
      case ExtendStep(p, _, _, until) => ExtendValid(rules, x, p, until);
      case CommitStep(p, _, _, result, ids, retryAt) => CommitKeeps(rules, x, p, result, ids, retryAt, now);
      case AnalyticsStep(p, _) => AnalyticsValid(rules, x, p, now);
      case CancelStep(version) => CancelValid(rules, x, version, now);
      case ReclaimStep(skipLeases, skipDeadline) => ReclaimValid(rules, x, skipLeases, skipDeadline, now);
      case ClaimBatchStep(_, _, _) => BatchStepKeepsValid(rules, x, step, now);
      case RetryBatchStep(_, _, _) => BatchStepKeepsValid(rules, x, step, now);
      case _ => EventStepKeepsValid(rules, x, step, now);
    }
  }

  // -------------------------------------------------------------- whole runs

  lemma NewExecutionCounts(command: ScanCommand, url: string, seed: Id, now: int)
    requires ValidCommand(command)
    ensures CountersMatch(NewExecution(command, url, seed, now))
  {
    var x := NewExecution(command, url, seed, now);
    assert WithStatus(x.pages, PageQueued) == {seed};
    assert forall status :: status != PageQueued ==> WithStatus(x.pages, status) == {};
    assert x.pages.Keys == {seed};
    assert DeliveredBatches(x.batches) == {};
  }

  lemma NewExecutionValid(rules: UrlRules, command: ScanCommand, url: string, seed: Id, now: int)
    requires ValidCommand(command)
    ensures Valid(rules, NewExecution(command, url, seed, now))
  {
    hide CountersMatch;
    NewExecutionCounts(command, url, seed, now);
  }

  lemma {:induction false} RunKeepsValid(rules: UrlRules, run: seq<Execution>)
    requires IsRun(rules, run) && Valid(rules, run[0])
    ensures Valid(rules, Last(run))
  {
    hide Valid, Apply, Enabled;
    if |run| > 1 {
      RunStep(rules, run);
      RunKeepsValid(rules, run[..|run| - 1]);
      var before := Last(run[..|run| - 1]);
      var step, now :| Last(run) == Apply(rules, before, step, now);
      StepKeepsValid(rules, before, step, now);
    }
  }

  lemma ScanRunValid(rules: UrlRules, command: ScanCommand, run: seq<Execution>)
    requires IsScanRun(rules, command, run)
    ensures Valid(rules, Last(run))
  {
    hide Valid, ValidCommand;
    var url, seed, start :| run[0] == NewExecution(command, url, seed, start);
    NewExecutionValid(rules, command, url, seed, start);
    RunKeepsValid(rules, run);
  }
}
