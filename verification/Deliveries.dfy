/** The life of the rows that wait to be delivered: analytics batches and events. */
module Deliveries {
  import opened Common
  import opened Frontier
  import opened FrontierInvariant
  import opened EventLane
  import opened PageOutcomes
  import opened Pipeline

  /** The delivery columns of a row. */
  datatype Delivery = Delivery(status: DeliveryStatus, attempts: nat, availableAt: int, lease: Option<Lease>)

  function OfBatch(batch: Batch): Delivery {
    Delivery(batch.status, batch.attempts, batch.availableAt, batch.lease)
  }

  function OfEvent(event: Event): Delivery {
    Delivery(event.status, event.attempts, event.availableAt, event.lease)
  }

  /** A row that is due is claimed. */
  predicate IsClaimed(a: Delivery, b: Delivery, now: int) {
    && (a.status == Pending || a.status == Dead) && a.availableAt <= now
    && b.status == Claimed && b.attempts == a.attempts + 1 && b.lease.Some?
  }

  /** A delivery that failed: the row waits again, dead from its twentieth delivery on. */
  predicate PutBack(a: Delivery, b: Delivery) {
    && a.status == Claimed && b.attempts == a.attempts && b.lease == None
    && b.status == if a.attempts < 20 then Pending else Dead
  }

  predicate IsDelivered(a: Delivery, b: Delivery) {
    a.status == Claimed && b.status == Delivered && b.attempts == a.attempts && b.lease == None
  }

  predicate TakenBack(a: Delivery, b: Delivery, now: int) {
    && a.status == Claimed && a.lease.Some? && a.lease.value.expiresAt <= now
    && b == Delivery(Pending, a.attempts, now, None)
  }

  /** What one transaction may do to a row; an event is acknowledged only under a running lease. */
  predicate Moves(a: Delivery, b: Delivery, now: int, running: bool) {
    || b == a || IsClaimed(a, b, now) || PutBack(a, b) || TakenBack(a, b, now)
    || (IsDelivered(a, b) && (running ==> a.lease.Some? && a.lease.value.expiresAt > now))
  }

  ghost predicate BatchesMove(x: Execution, y: Execution, now: int) {
    && (forall p :: p in x.batches ==> p in y.batches && Moves(OfBatch(x.batches[p]), OfBatch(y.batches[p]), now, false))
    && (forall p :: p in y.batches && p !in x.batches ==> y.batches[p] == Batch(Pending, 0, now, None))
  }

  ghost predicate EventsMove(x: Execution, y: Execution, now: int) {
    && |x.outbox| <= |y.outbox|
    && (forall i :: 0 <= i < |x.outbox| ==> Moves(OfEvent(x.outbox[i]), OfEvent(y.outbox[i]), now, true))
    && (forall i :: |x.outbox| <= i < |y.outbox| ==> OfEvent(y.outbox[i]) == Delivery(Pending, 0, now, None))
  }

  lemma SameBatches(x: Execution, y: Execution, now: int)
    requires y.batches == x.batches
    ensures BatchesMove(x, y, now)
  {}

  lemma SameOutbox(x: Execution, y: Execution, now: int)
    requires y.outbox == x.outbox
    ensures EventsMove(x, y, now)
  {}

  lemma PublishMoves(x: Execution, y: Execution, now: int)
    requires EventsMove(x, y, now) && |y.outbox| == |x.outbox|
    ensures EventsMove(x, PublishProgress(y, now), now)
  {
    hide Snapshot, Throttled, Moves;
  }

  lemma PublishBatches(x: Execution, y: Execution, now: int)
    requires BatchesMove(x, y, now)
    ensures BatchesMove(x, PublishProgress(y, now), now)
  {
    PublishedRows(y, now);
    hide PublishProgress, Moves;
  }

  lemma StageMoves(rules: UrlRules, x: Execution, p: Id, result: PageResult, ids: seq<Id>, now: int)
    requires p in x.pages && |result.links| <= |ids| && p !in x.batches
    ensures BatchesMove(x, StageRow(rules, x, p, result, ids, now), now)
  {
    hide InsertPages, NewUrls;
  }

  lemma DeliverMoves(x: Execution, p: Id, owner: Id, now: int)
    requires HoldsBatch(x, p, owner) && p in x.pages && x.pages[p].pending.Some?
    ensures BatchesMove(x, AnalyticsRow(x, p), now)
  {}

  lemma ReclaimedMove(x: Execution, now: int)
    ensures BatchesMove(x, ReclaimDeliveries(x, now), now) && EventsMove(x, ReclaimDeliveries(x, now), now)
  {
    var y := ReclaimDeliveries(x, now);
    forall p | p in x.batches ensures Moves(OfBatch(x.batches[p]), OfBatch(y.batches[p]), now, false) {
      assert y.batches[p] == ReclaimedBatch(x.batches[p], now);
    }
    forall i | 0 <= i < |x.outbox| ensures Moves(OfEvent(x.outbox[i]), OfEvent(y.outbox[i]), now, true) {
      assert y.outbox[i] == ReclaimedEvent(x.outbox[i], now);
    }
  }

  lemma ReclaimRowBatches(x: Execution, skipLeases: bool, skipDeadline: bool, now: int)
    ensures ReclaimRow(x, skipLeases, skipDeadline, now).batches == ReclaimDeliveries(x, now).batches
  {
    var a := ReclaimDeliveries(x, now);
    var b := if skipLeases then a else ReclaimLeases(a, now);
    assert b.batches == a.batches;
    var c := if skipDeadline then b else ReclaimDeadline(b, now);
    assert c.batches == b.batches by { hide ReclaimLeases; }
    hide ReclaimLeases, ReclaimDeadline;
  }

  lemma MovesFrame(x: Execution, y: Execution, z: Execution, now: int)
    requires BatchesMove(x, y, now) && EventsMove(x, y, now) && z.batches == y.batches && z.outbox == y.outbox
    ensures BatchesMove(x, z, now) && EventsMove(x, z, now)
  {}

  lemma ReclaimMoves(x: Execution, skipLeases: bool, skipDeadline: bool, now: int)
    ensures BatchesMove(x, Reclaim(x, skipLeases, skipDeadline, now), now) && EventsMove(x, Reclaim(x, skipLeases, skipDeadline, now), now)
  {
    hide BatchesMove, EventsMove, ReclaimRow;
    var y := ReclaimRow(x, skipLeases, skipDeadline, now);
    ReclaimedMove(x, now);
    ReclaimRowBatches(x, skipLeases, skipDeadline, now);
    ReclaimRowOutbox(x, skipLeases, skipDeadline, now);
    assert |ReclaimDeliveries(x, now).outbox| == |x.outbox|;
    MovesFrame(x, ReclaimDeliveries(x, now), y, now);
    hide ReclaimDeliveries;
    PublishMoves(x, y, now);
    PublishBatches(x, y, now);
    hide PublishProgress;
  }

  lemma EventStepMoves(rules: UrlRules, x: Execution, step: Step, now: int)
    requires step.ClaimEventStep? || step.CompleteEventStep? || step.RetryEventStep?
    ensures BatchesMove(x, Apply(rules, x, step, now), now) && EventsMove(x, Apply(rules, x, step, now), now)
  {}

  lemma BatchStepMoves(rules: UrlRules, x: Execution, step: Step, now: int)
    requires step.ClaimBatchStep? || step.RetryBatchStep? || step.ExtendStep?
    ensures BatchesMove(x, Apply(rules, x, step, now), now) && EventsMove(x, Apply(rules, x, step, now), now)
  {}

  lemma LeasedHasNoBatch(x: Execution, p: Id)
    requires PagesOk(x) && p in x.pages && x.pages[p].status == PageLeased
    ensures p !in x.batches
  {
    hide Settles, TerminalOutcome;
    assert PageOk(x.pages[p], x.host);
  }

  lemma RowMoves(x: Execution, y: Execution, now: int)
    requires BatchesMove(x, y, now) && y.outbox == x.outbox
    ensures BatchesMove(x, PublishProgress(y, now), now) && EventsMove(x, PublishProgress(y, now), now)
  {
    hide BatchesMove, PublishProgress;
    SameOutbox(x, y, now);
    PublishMoves(x, y, now);
    PublishBatches(x, y, now);
    hide EventsMove;
  }

  lemma StepMoves(rules: UrlRules, x: Execution, step: Step, now: int)
    requires PagesOk(x)
    ensures BatchesMove(x, Apply(rules, x, step, now), now) && EventsMove(x, Apply(rules, x, step, now), now)
  {
    hide PagesOk, BatchesMove, EventsMove, PublishProgress, Reclaim;
    if !Enabled(x, step, now) {
      SameBatches(x, x, now);
      SameOutbox(x, x, now);
    } else {
      match step
      case ClaimStep(p, owner, until) =>
        SameBatches(x, ClaimRow(x, p, owner, until), now);
        RowMoves(x, ClaimRow(x, p, owner, until), now);
      case CommitStep(p, _, _, result, ids, retryAt) =>
        LeasedHasNoBatch(x, p);
        if ShouldRetryPage(result, x.pages[p].attempts) {
          SameBatches(x, RequeueRow(x, p, retryAt), now);
          RowMoves(x, RequeueRow(x, p, retryAt), now);
        } else {
          StageMoves(rules, x, p, result, ids, now);
          RowMoves(x, StageRow(rules, x, p, result, ids, now), now);
        }
      case AnalyticsStep(p, owner) =>
        DeliverMoves(x, p, owner, now);
        RowMoves(x, AnalyticsRow(x, p), now);
      case CancelStep(version) =>
        SameBatches(x, CancelRow(x, version), now);
        RowMoves(x, CancelRow(x, version), now);
      case ReclaimStep(skipLeases, skipDeadline) => ReclaimMoves(x, skipLeases, skipDeadline, now);
      case ExtendStep(_, _, _, _) => BatchStepMoves(rules, x, step, now);
      case ClaimBatchStep(_, _, _) => BatchStepMoves(rules, x, step, now);
      case RetryBatchStep(_, _, _) => BatchStepMoves(rules, x, step, now);
      case _ => EventStepMoves(rules, x, step, now);
    }
  }

  lemma PagesInOrder(rules: UrlRules, command: ScanCommand, run: seq<Execution>)
    requires IsScanRun(rules, command, run)
    ensures PagesOk(Last(run))
  {
    hide ValidCommand, NewExecution, StepAt, PagesOk, CountersMatch, StatusOk, TreeOk, OutboxOk;
    ScanRunValid(rules, command, run);
  }

  /**
   * Every transaction of a scan claims rows only when they are due, takes them
   * back only when their lease has run out, puts them back dead only from the
   * twentieth delivery on, and acknowledges events only under a running lease.
   */
  lemma RowsMove(rules: UrlRules, command: ScanCommand, run: seq<Execution>, step: Step, now: int)
    requires IsScanRun(rules, command, run)
    ensures BatchesMove(Last(run), Apply(rules, Last(run), step, now), now)
    ensures EventsMove(Last(run), Apply(rules, Last(run), step, now), now)
  {
    hide ValidCommand, NewExecution, StepAt, PagesOk, Apply, BatchesMove, EventsMove;
    PagesInOrder(rules, command, run);
    StepMoves(rules, Last(run), step, now);
  }

  /** A claimed row that its owner gives back is dead exactly from the twentieth delivery on, and due at `retryAt`. */
  lemma RetryWaits(rules: UrlRules, x: Execution, i: nat, p: Id, owner: Id, retryAt: int, now: int)
    ensures HoldsEvent(x.outbox, i, owner) ==>
      OfEvent(Apply(rules, x, RetryEventStep(i, owner, retryAt), now).outbox[i])
      == Delivery(if x.outbox[i].attempts < 20 then Pending else Dead, x.outbox[i].attempts, retryAt, None)
    ensures HoldsBatch(x, p, owner) ==>
      OfBatch(Apply(rules, x, RetryBatchStep(p, owner, retryAt), now).batches[p])
      == Delivery(if x.batches[p].attempts < 20 then Pending else Dead, x.batches[p].attempts, retryAt, None)
  {}

  ghost predicate DeadOk(x: Execution) {
    && (forall p :: p in x.batches && x.batches[p].status == Dead ==> x.batches[p].attempts >= 20)
    && (forall i :: 0 <= i < |x.outbox| && x.outbox[i].status == Dead ==> x.outbox[i].attempts >= 20)
  }

  lemma DeadStep(x: Execution, y: Execution, now: int)
    requires DeadOk(x) && BatchesMove(x, y, now) && EventsMove(x, y, now)
    ensures DeadOk(y)
  {
    forall i | 0 <= i < |y.outbox| && y.outbox[i].status == Dead ensures y.outbox[i].attempts >= 20 {
      if i < |x.outbox| {
        assert Moves(OfEvent(x.outbox[i]), OfEvent(y.outbox[i]), now, true);
      }
    }
  }

  /** In every reachable state a dead row was delivered twenty times or more. */
  lemma {:induction false} DeadAfterTwenty(rules: UrlRules, command: ScanCommand, run: seq<Execution>)
    requires IsScanRun(rules, command, run)
    ensures DeadOk(Last(run))
  {
    hide Apply, ValidCommand, NewExecution, BatchesMove, EventsMove, DeadOk;
    if |run| > 1 {
      var init := run[..|run| - 1];
      RunStep(rules, run);
      DeadAfterTwenty(rules, command, init);
      var step, now :| Last(run) == Apply(rules, Last(init), step, now);
      RowsMove(rules, command, init, step, now);
      DeadStep(Last(init), Last(run), now);
    } else {
      NothingDead(command, run[0]);
    }
  }

  lemma NothingDead(command: ScanCommand, x: Execution)
    requires exists url, seed, start :: x == NewExecution(command, url, seed, start)
    ensures DeadOk(x)
  {}

  /** An event may be claimed exactly if it is due and the first that is not delivered. */
  lemma ClaimableExactly(rules: UrlRules, command: ScanCommand, run: seq<Execution>, i: nat, now: int)
    requires IsScanRun(rules, command, run) && i < |Last(run).outbox|
    ensures var outbox := Last(run).outbox;
      EventClaimable(outbox, i, now) <==>
        && (outbox[i].status == Pending || outbox[i].status == Dead) && outbox[i].availableAt <= now
        && forall j :: 0 <= j < i ==> outbox[j].status == Delivered
  {
    hide ValidCommand, NewExecution, StepAt, FrontierOk, PayloadOk, TerminalLast;
    ScanRunValid(rules, command, run);
    var x := Last(run);
    forall j | i < j < |x.outbox| && x.outbox[i].status != Delivered ensures x.outbox[j].status != Claimed {
      assert EventOk(x.outbox[j], x.progressVersion, x.maxPages);
    }
    if EventClaimable(x.outbox, i, now) {
      ClaimableHead(x, i, now);
    }
  }
}
