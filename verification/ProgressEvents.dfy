/** When a progress event is written, and what it tells. */
module ProgressEvents {
  import opened Common
  import opened Frontier
  import opened FrontierInvariant
  import opened EventLane
  import opened Pipeline

  /** The columns of an event that no transaction changes. */
  predicate SameEvent(a: Event, b: Event) {
    a.version == b.version && a.payload == b.payload && a.createdAt == b.createdAt
  }

  ghost predicate Extends(a: seq<Event>, b: seq<Event>) {
    |a| <= |b| && forall i :: 0 <= i < |a| ==> SameEvent(a[i], b[i])
  }

  /** The event is new, and tells status, counters, version and terminal code of `y`. */
  predicate Tells(event: Event, y: Execution, now: int) {
    var p, c := event.payload, y.counts;
    && event.version == y.progressVersion
    && event.createdAt == now && event.availableAt == now
    && event.status == Pending && event.attempts == 0 && event.lease == None
    && p.status == y.status && p.discovered == c.discovered && p.queued == c.queued + c.leased + c.persisting
    && p.succeeded == c.succeeded && p.failed == c.failed + c.skipped + c.cancelled && p.processed == p.succeeded + p.failed
    && p.expected == c.expected && p.published == c.published
    && p.terminalCode == if y.status == Failed && y.terminalCode == "" then "CRAWL_FAILED" else y.terminalCode
  }

  /** Progress in `y` is worth an event: the latest one is a second old or tells another status, or the scan has ended. */
  predicate Newsworthy(outbox: seq<Event>, y: Execution, now: int) {
    || outbox == [] || Terminal(y.status)
    || outbox[|outbox| - 1].payload.status != y.status
    || outbox[|outbox| - 1].createdAt + 1000 <= now
  }

  /** From `x` to `y` one event is written if there is progress worth it, and none otherwise. */
  ghost predicate Writes(x: Execution, y: Execution, now: int) {
    && Extends(x.outbox, y.outbox)
    && x.progressVersion <= y.progressVersion
    && if x.progressVersion < y.progressVersion && Newsworthy(x.outbox, y, now)
       then |y.outbox| == |x.outbox| + 1 && Tells(y.outbox[|x.outbox|], y, now)
       else |y.outbox| == |x.outbox|
  }

  /** Without progress there is nothing to tell: status, counters and terminal code stay. */
  ghost predicate TellsAll(x: Execution, y: Execution) {
    x.progressVersion == y.progressVersion ==> y.status == x.status && y.counts == x.counts && y.terminalCode == x.terminalCode
  }

  lemma OlderEvents(x: Execution, y: Execution)
    requires OutboxOk(x) && Extends(x.outbox, y.outbox) && |y.outbox| == |x.outbox| && x.progressVersion < y.progressVersion
    ensures forall i :: 0 <= i < |y.outbox| ==> y.outbox[i].version < y.progressVersion
  {
    hide LaneOk, TerminalLast, PayloadOk;
    forall i | 0 <= i < |y.outbox| ensures y.outbox[i].version < y.progressVersion {
      assert SameEvent(x.outbox[i], y.outbox[i]) && EventOk(x.outbox[i], x.progressVersion, x.maxPages);
    }
  }

  /** Publishing writes the event of a row exactly when it is worth it. */
  lemma PublishWrites(y: Execution, now: int)
    requires Snapshot(y).status == y.status
    requires forall i :: 0 <= i < |y.outbox| ==> y.outbox[i].version < y.progressVersion
    ensures var z := PublishProgress(y, now);
      && z == y.(outbox := z.outbox) && Extends(y.outbox, z.outbox)
      && if Newsworthy(y.outbox, y, now) then |z.outbox| == |y.outbox| + 1 && Tells(z.outbox[|y.outbox|], y, now)
         else z == y
  {}

  lemma Onwards(a: seq<Event>, b: seq<Event>, c: seq<Event>)
    requires Extends(a, b) && Extends(b, c)
    ensures Extends(a, c)
  {}

  lemma NewsFrame(a: seq<Event>, b: seq<Event>, y: Execution, z: Execution, now: int)
    requires Extends(a, b) && |a| == |b| && z == y.(outbox := z.outbox)
    ensures Newsworthy(a, z, now) <==> Newsworthy(b, y, now)
    ensures forall event :: Tells(event, y, now) <==> Tells(event, z, now)
  {
    if a != [] {
      assert SameEvent(a[|a| - 1], b[|a| - 1]);
    }
  }

  lemma ShownStatus(rules: UrlRules, z: Execution)
    requires Valid(rules, z) && z.outbox != []
    ensures Snapshot(z).status == z.status
  {
    assert z.status != Queued by { hide Snapshot, FrontierOk; }
    SnapshotOk(rules, z);
  }

  lemma SnapshotFrame(y: Execution, z: Execution)
    requires z == y.(outbox := z.outbox)
    ensures Snapshot(y) == Snapshot(z)
  {}

  lemma PublishRow(y: Execution, now: int)
    ensures PublishProgress(y, now) == y.(outbox := PublishProgress(y, now).outbox)
    ensures PublishProgress(y, now).outbox != []
  {
    hide Snapshot;
  }

  lemma RowWrites(rules: UrlRules, x: Execution, y: Execution, z: Execution, now: int)
    requires OutboxOk(x) && Valid(rules, z) && z == PublishProgress(y, now)
    requires Extends(x.outbox, y.outbox) && |y.outbox| == |x.outbox| && x.progressVersion < y.progressVersion
    ensures Writes(x, z, now) && TellsAll(x, z)
  {
    hide Valid, OutboxOk, PublishProgress, Snapshot, Extends, Newsworthy, Tells;
    OlderEvents(x, y);
    PublishRow(y, now);
    ShownStatus(rules, z);
    SnapshotFrame(y, z);
    PublishWrites(y, now);
    Onwards(x.outbox, y.outbox, z.outbox);
    NewsFrame(x.outbox, y.outbox, y, z, now);
  }

  lemma ReclaimedEvents(x: Execution, now: int)
    ensures Extends(x.outbox, ReclaimDeliveries(x, now).outbox) && |ReclaimDeliveries(x, now).outbox| == |x.outbox|
  {}

  lemma ReclaimWrites(rules: UrlRules, x: Execution, skipLeases: bool, skipDeadline: bool, now: int)
    requires Valid(rules, x) && Valid(rules, Reclaim(x, skipLeases, skipDeadline, now))
    ensures Writes(x, Reclaim(x, skipLeases, skipDeadline, now), now) && TellsAll(x, Reclaim(x, skipLeases, skipDeadline, now))
  {
    var y := ReclaimRow(x, skipLeases, skipDeadline, now);
    ReclaimRowOutbox(x, skipLeases, skipDeadline, now);
    ReclaimedEvents(x, now);
    ReclaimKeeps(rules, x, skipLeases, skipDeadline, now);
    ReclaimStatus(x, skipLeases, skipDeadline, now);
    assert ReclaimDeliveries(x, now).counts == x.counts && ReclaimDeliveries(x, now).terminalCode == x.terminalCode;
    hide ReclaimRow, ReclaimDeliveries, FrontierOk, Snapshot, Throttled;
    if y.progressVersion != x.progressVersion {
      RowWrites(rules, x, y, Reclaim(x, skipLeases, skipDeadline, now), now);
    }
  }

  lemma QuietWrites(rules: UrlRules, x: Execution, step: Step, now: int)
    requires !step.ClaimStep? && !step.CommitStep? && !step.AnalyticsStep? && !step.CancelStep? && !step.ReclaimStep?
    ensures Writes(x, Apply(rules, x, step, now), now) && TellsAll(x, Apply(rules, x, step, now))
  {}

  lemma SameWrites(x: Execution, now: int)
    ensures Writes(x, x, now) && TellsAll(x, x) && Extends(x.outbox, x.outbox)
  {}

  /** Every transaction on an execution in order writes its event exactly when it is due. */
  lemma StepWrites(rules: UrlRules, x: Execution, step: Step, now: int)
    requires Valid(rules, x)
    ensures Writes(x, Apply(rules, x, step, now), now) && TellsAll(x, Apply(rules, x, step, now))
  {
    hide Valid, FrontierOk, OutboxOk, PublishProgress, Reclaim, Writes, TellsAll, Extends;
    var z := Apply(rules, x, step, now);
    StepKeepsValid(rules, x, step, now);
    ValidParts(rules, x);
    SameWrites(x, now);
    if Enabled(x, step, now) {
      match step
      case ClaimStep(p, owner, until) => RowWrites(rules, x, ClaimRow(x, p, owner, until), z, now);
      case CommitStep(p, _, _, result, ids, retryAt) =>
        RowWrites(rules, x, if ShouldRetryPage(result, x.pages[p].attempts) then RequeueRow(x, p, retryAt)
                            else StageRow(rules, x, p, result, ids, now), z, now);
      case AnalyticsStep(p, _) => RowWrites(rules, x, AnalyticsRow(x, p), z, now);
      case CancelStep(version) => RowWrites(rules, x, CancelRow(x, version), z, now);
      case ReclaimStep(skipLeases, skipDeadline) => ReclaimWrites(rules, x, skipLeases, skipDeadline, now);
      case _ => QuietWrites(rules, x, step, now);
    }
  }

  // ---------------------------------------------------------- over whole runs

  /** After every transaction of a scan: one event if there is progress worth it, none otherwise. */
  lemma WrittenWhenDue(rules: UrlRules, command: ScanCommand, run: seq<Execution>, step: Step, now: int)
    requires IsScanRun(rules, command, run)
    ensures Writes(Last(run), Apply(rules, Last(run), step, now), now) && TellsAll(Last(run), Apply(rules, Last(run), step, now))
  {
    hide Valid, ValidCommand, Apply, NewExecution, StepAt, Writes, TellsAll;
    ScanRunValid(rules, command, run);
    StepWrites(rules, Last(run), step, now);
  }

  /** Past QUEUED, the last event of a scan tells the stored status: no change of it is ever held back. */
  lemma StatusShown(rules: UrlRules, command: ScanCommand, run: seq<Execution>)
    requires IsScanRun(rules, command, run) && Last(run).status != Queued
    ensures var x := Last(run); x.outbox != [] && x.outbox[|x.outbox| - 1].payload.status == x.status
  {
    hide IsScanRun, FrontierOk, LaneOk, EventOk, Snapshot;
    ScanRunValid(rules, command, run);
  }

  /** Neighbours that tell the same status are a second apart. */
  ghost predicate Spaced(outbox: seq<Event>) {
    forall i :: 0 < i < |outbox| && outbox[i].payload.status == outbox[i - 1].payload.status ==>
      outbox[i - 1].createdAt + 1000 <= outbox[i].createdAt
  }

  lemma SpacedOn(x: Execution, y: Execution, now: int)
    requires OutboxOk(y) && Spaced(x.outbox) && Writes(x, y, now)
    ensures Spaced(y.outbox)
  {
    hide Snapshot, LaneOk, EventOk;
    forall i | 0 < i < |y.outbox| && y.outbox[i].payload.status == y.outbox[i - 1].payload.status
      ensures y.outbox[i - 1].createdAt + 1000 <= y.outbox[i].createdAt
    {
      assert SameEvent(x.outbox[i - 1], y.outbox[i - 1]);
      if i < |x.outbox| {
        assert SameEvent(x.outbox[i], y.outbox[i]);
      }
    }
  }

  /** Over a whole run, neighbouring events with one status are written at least a second apart. */
  lemma {:induction false} EventsSpaced(rules: UrlRules, command: ScanCommand, run: seq<Execution>)
    requires IsScanRun(rules, command, run)
    ensures Spaced(Last(run).outbox)
  {
    hide Valid, OutboxOk, Apply, ValidCommand, Writes, NewExecution;
    if |run| > 1 {
      var init := run[..|run| - 1];
      RunStep(rules, run);
      EventsSpaced(rules, command, init);
      ScanRunValid(rules, command, init);
      ScanRunValid(rules, command, run);
      var step, now :| Last(run) == Apply(rules, Last(init), step, now);
      StepWrites(rules, Last(init), step, now);
      ValidParts(rules, Last(run));
      SpacedOn(Last(init), Last(run), now);
    } else {
      NoEvents(command, run[0]);
    }
  }

  lemma NoEvents(command: ScanCommand, x: Execution)
    requires exists url, seed, start :: x == NewExecution(command, url, seed, start)
    ensures Spaced(x.outbox)
  {}
}
