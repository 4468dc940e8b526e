/** No reachable scan is stuck: whatever its workers were doing when they stopped, it can still end. */
module Recovery {
  import opened Common
  import opened Frontier
  import opened Counting
  import opened FrontierInvariant
  import opened EventLane
  import opened Cluster
  import opened ClusterInvariant

  /** Reclaiming late enough leaves no lease. */
  lemma LeasesRunOut(x: Execution, now: int)
    requires CountersMatch(x) && PagesOk(x)
    requires forall p :: p in x.pages && x.pages[p].lease.Some? ==> x.pages[p].lease.value.expiresAt <= now
    ensures ReclaimLeases(x, now).counts.leased == 0
    ensures ReclaimLeases(x, now).counts.persisting == x.counts.persisting
    ensures ReclaimLeases(x, now).counts.queued == Count(ReclaimLeases(x, now).pages, PageQueued)
    ensures ReclaimLeases(x, now).status == x.status && ReclaimLeases(x, now).deadline == x.deadline
  {
    forall p | p in x.pages ensures x.pages[p].status == PageLeased <==> PageExpired(x.pages[p], now) {
      assert PageOk(x.pages[p], x.host);
    }
    assert ExpiredSet(x, now) == WithStatus(x.pages, PageLeased);
    if ExpiredSet(x, now) != {} {
      ReclaimedQueue(x, now);
    }
  }

  lemma ReclaimedQueue(x: Execution, now: int)
    requires CountersMatch(x) && ExpiredSet(x, now) != {}
    ensures ReclaimLeases(x, now).counts.queued == Count(ReclaimLeases(x, now).pages, PageQueued)
  {
    hide CountersMatch, ExpiredSet, SpentSet, WithStatus, ExpiredPage;
    var y := ReclaimLeases(x, now);
    QueuedMatch(x);
    RequeuedPages(x, y.pages, now);
    DisjointUnion(WithStatus(x.pages, PageQueued), ExpiredSet(x, now) - SpentSet(x, now));
  }

  lemma QueuedMatch(x: Execution)
    requires CountersMatch(x)
    ensures x.counts.queued == |WithStatus(x.pages, PageQueued)|
  {}

  lemma RequeuedPages(x: Execution, pages: map<Id, Page>, now: int)
    requires pages == map p | p in x.pages :: ExpiredPage(x.pages[p], now)
    ensures WithStatus(x.pages, PageQueued) !! ExpiredSet(x, now)
    ensures WithStatus(pages, PageQueued) == WithStatus(x.pages, PageQueued) + (ExpiredSet(x, now) - SpentSet(x, now))
  {}

  /** Past the deadline the queue is emptied. */
  lemma DeadlineEmptiesQueue(x: Execution, now: int)
    requires x.status == Queued || x.status == Running
    requires x.counts.queued == Count(x.pages, PageQueued) && x.deadline <= now
    ensures ReclaimDeadline(x, now).counts.queued == 0
    ensures ReclaimDeadline(x, now).counts.leased == x.counts.leased && ReclaimDeadline(x, now).counts.persisting == x.counts.persisting
  {}

  lemma LeasedNone(x: Execution, now: int)
    requires CountersMatch(x) && PagesOk(x)
    requires forall p :: p in x.pages && x.pages[p].lease.Some? ==> x.pages[p].lease.value.expiresAt <= now
    ensures var b := ReclaimLeases(ReclaimDeliveries(x, now), now);
      && b.counts.leased == 0 && b.counts.persisting == x.counts.persisting
      && b.counts.queued == Count(b.pages, PageQueued)
      && b.status == x.status && b.deadline == x.deadline
  {
    hide CountersMatch, PagesOk, ReclaimLeases, Count;
    var a := ReclaimDeliveries(x, now);
    ReclaimDeliveriesRows(x, now);
    CountersSame(x, a);
    LeasesRunOut(a, now);
  }

  lemma ReclaimedAnalytics(x: Execution, now: int)
    ensures var c := ReclaimDeadline(ReclaimLeases(ReclaimDeliveries(x, now), now), now);
      && c.counts.expected == x.counts.expected && c.counts.published == x.counts.published && c.status == x.status
  {}

  /** With nothing left to persist, one late reclamation ends the scan. */
  lemma ReclaimEnds(x: Execution, now: int)
    requires CountersMatch(x) && PagesOk(x) && StatusOk(x) && !Terminal(x.status)
    requires x.counts.persisting == 0 && x.deadline <= now
    requires forall p :: p in x.pages && x.pages[p].lease.Some? ==> x.pages[p].lease.value.expiresAt <= now
    ensures Terminal(ReclaimRow(x, false, false, now).status)
  {
    hide CountersMatch, PagesOk, StatusOk, ReclaimLeases, ReclaimDeliveries, ReclaimDeadline, Count;
    var b := ReclaimLeases(ReclaimDeliveries(x, now), now);
    AnalyticsConservation(x);
    LeasedNone(x, now);
    ReclaimedAnalytics(x, now);
    CancelRequestedDrained(x);
    if b.status == CancelRequested {
      CancelRequestedQueue(x, b, now);
    } else {
      DeadlineEmptiesQueue(b, now);
    }
  }

  lemma CancelRequestedDrained(x: Execution)
    requires StatusOk(x) && !Terminal(x.status)
    ensures x.status == CancelRequested ==> x.counts.queued == 0 && x.counts.leased == 0
    ensures x.status == Queued || x.status == Running || x.status == CancelRequested
  {}

  lemma CountersSame(x: Execution, y: Execution)
    requires CountersMatch(x) && y.pages == x.pages && y.counts == x.counts
    requires y.maxPages == x.maxPages && y.maxConcurrency == x.maxConcurrency
    requires |y.batches| == |x.batches| && DeliveredBatches(y.batches) == DeliveredBatches(x.batches)
    ensures CountersMatch(y)
  {}

  lemma CancelRequestedQueue(x: Execution, b: Execution, now: int)
    requires CountersMatch(x) && x.counts.queued == 0 && x.counts.leased == 0 && x.status == CancelRequested
    requires b == ReclaimLeases(ReclaimDeliveries(x, now), now)
    ensures ReclaimDeadline(b, now) == b && b.counts.queued == 0
  {
    assert ExpiredSet(ReclaimDeliveries(x, now), now) <= WithStatus(x.pages, PageLeased);
  }

  // ----------------------------------------------------------- one scan, late

  function PageEnd(page: Page): int {
    if page.lease.Some? then page.lease.value.expiresAt else 0
  }

  function BatchEnd(batch: Batch): int {
    if batch.lease.Some? && batch.lease.value.expiresAt > batch.availableAt then batch.lease.value.expiresAt else batch.availableAt
  }

  /** The deadline has passed, every lease has run out, and every analytics row is due. */
  ghost predicate Late(x: Execution, now: int) {
    && x.deadline <= now
    && (forall p :: p in x.pages ==> PageEnd(x.pages[p]) <= now)
    && (forall p :: p in x.batches ==> BatchEnd(x.batches[p]) <= now)
    && now >= 0
  }

  lemma {:induction false} LatestOf<V>(m: map<Id, V>, end: V -> int, from: int) returns (t: int)
    ensures t >= from && forall k :: k in m ==> end(m[k]) <= t
    decreases |m|
  {
    if m == map[] {
      t := from;
    } else {
      var k :| k in m;
      assert m.Keys == (m - {k}).Keys + {k};
      t := LatestOf(m - {k}, end, if end(m[k]) > from then end(m[k]) else from);
    }
  }

  lemma LateTime(x: Execution, from: int) returns (t: int)
    ensures t >= from && Late(x, t)
  {
    var a := if from > x.deadline then from else x.deadline;
    var b := LatestOf(x.pages, PageEnd, if a > 0 then a else 0);
    t := LatestOf(x.batches, BatchEnd, b);
  }

  /** Nothing waits, nothing is leased, and every analytics row that is not delivered may be claimed. */
  ghost predicate Drained(x: Execution, now: int) {
    && x.counts.queued == 0 && x.counts.leased == 0
    && forall p :: p in x.batches ==> x.batches[p].status != Claimed && x.batches[p].availableAt <= now
  }

  /** One late reclamation leaves nothing queued and nothing leased. */
  lemma ReclaimDrains(x: Execution, now: int)
    requires CountersMatch(x) && PagesOk(x) && StatusOk(x) && Late(x, now)
    ensures ReclaimRow(x, false, false, now).counts.queued == 0 && ReclaimRow(x, false, false, now).counts.leased == 0
  {
    hide CountersMatch, PagesOk, ReclaimLeases, ReclaimDeliveries, ReclaimDeadline, Count;
    if Terminal(x.status) {
      ReclaimTerminal(x, false, false, now);
      DeliveriesCounts(x, now);
    } else {
      var b := ReclaimLeases(ReclaimDeliveries(x, now), now);
      hide StatusOk;
      LeasedNone(x, now);
      CancelRequestedDrained(x);
      if b.status == CancelRequested {
        CancelRequestedQueue(x, b, now);
      } else {
        DeadlineEmptiesQueue(b, now);
      }
    }
  }

  lemma DeliveriesCounts(x: Execution, now: int)
    ensures ReclaimDeliveries(x, now).counts == x.counts
  {}

  lemma RowBatches(x: Execution, now: int)
    ensures ReclaimRow(x, false, false, now).batches == ReclaimDeliveries(x, now).batches
  {
    var a := ReclaimDeliveries(x, now);
    var b := ReclaimLeases(a, now);
    assert b.batches == a.batches;
    hide ReclaimLeases;
    assert ReclaimDeadline(b, now).batches == b.batches;
  }

  lemma BatchesReturn(x: Execution, now: int)
    requires PagesOk(x) && Late(x, now)
    ensures var batches := ReclaimDeliveries(x, now).batches;
      forall p :: p in batches ==> batches[p].status != Claimed && batches[p].availableAt <= now
  {
    var batches := ReclaimDeliveries(x, now).batches;
    forall p | p in batches ensures batches[p].status != Claimed && batches[p].availableAt <= now {
      assert BatchEnd(x.batches[p]) <= now && batches[p] == ReclaimedBatch(x.batches[p], now);
    }
  }

  lemma SweptDrained(rules: UrlRules, x: Execution, now: int)
    requires Valid(rules, x) && Late(x, now)
    ensures Drained(Reclaim(x, false, false, now), now)
  {
    hide Valid, FrontierOk, CountersMatch, PagesOk, StatusOk, Late, ReclaimRow, ReclaimDeliveries, Snapshot, Throttled;
    ValidParts(rules, x);
    FrontierParts(rules, x);
    ReclaimDrains(x, now);
    RowBatches(x, now);
    BatchesReturn(x, now);
  }

  /** A worker claims the analytics row of a page in PERSISTING and completes it: one page less to persist. */
  lemma PersistOne(rules: UrlRules, x: Execution, p: Id, worker: Id, until: int, now: int)
    requires Valid(rules, x) && Drained(x, now) && p in x.pages && x.pages[p].status == PagePersisting
    ensures var y := Apply(rules, x, ClaimBatchStep(p, worker, until), now);
      var z := Apply(rules, y, AnalyticsStep(p, worker), now);
      && Valid(rules, y) && Valid(rules, z)
      && Drained(z, now) && z.counts.persisting == x.counts.persisting - 1
  {
    hide Valid, Snapshot, Throttled, CompleteAnalytics, Apply, Drained;
    var y := Apply(rules, x, ClaimBatchStep(p, worker, until), now);
    StepKeepsValid(rules, x, ClaimBatchStep(p, worker, until), now);
    StepKeepsValid(rules, y, AnalyticsStep(p, worker), now);
    assert Enabled(x, ClaimBatchStep(p, worker, until), now) && x.pages[p].pending.Some? by { DueRow(rules, x, p, now); }
    assert y == ClaimBatch(x, p, worker, until) by { ClaimApplies(rules, x, p, worker, until, now); }
    assert Apply(rules, y, AnalyticsStep(p, worker), now) == CompleteAnalytics(y, p, now) by { AnalyticsApplies(rules, y, p, worker, now); }
    PersistedDrained(x, p, worker, until, now);
  }

  lemma DueRow(rules: UrlRules, x: Execution, p: Id, now: int)
    requires Valid(rules, x) && Drained(x, now) && p in x.pages && x.pages[p].status == PagePersisting
    ensures BatchClaimable(x, p, now) && x.pages[p].pending.Some?
  {
    hide CountersMatch, StatusOk, TreeOk, OutboxOk;
    assert PageOk(x.pages[p], x.host) && p in x.batches && x.batches[p].status != Delivered;
  }

  lemma ClaimApplies(rules: UrlRules, x: Execution, p: Id, worker: Id, until: int, now: int)
    requires BatchClaimable(x, p, now)
    ensures Apply(rules, x, ClaimBatchStep(p, worker, until), now) == ClaimBatch(x, p, worker, until)
  {}

  lemma AnalyticsApplies(rules: UrlRules, y: Execution, p: Id, worker: Id, now: int)
    requires HoldsBatch(y, p, worker) && p in y.pages && y.pages[p].status == PagePersisting && y.pages[p].pending.Some?
    ensures Apply(rules, y, AnalyticsStep(p, worker), now) == CompleteAnalytics(y, p, now)
  {
    hide CompleteAnalytics;
  }

  lemma PersistedDrained(x: Execution, p: Id, worker: Id, until: int, now: int)
    requires Drained(x, now) && p in x.batches && p in x.pages && x.pages[p].pending.Some?
    ensures var z := CompleteAnalytics(ClaimBatch(x, p, worker, until), p, now);
      Drained(z, now) && z.counts.persisting == x.counts.persisting - 1
  {
    hide Snapshot, Throttled;
    var y := ClaimBatch(x, p, worker, until);
    var z := AnalyticsRow(y, p);
    assert forall q :: q in z.batches ==> q == p || (q in x.batches && z.batches[q] == x.batches[q]);
  }

  // ------------------------------------------------------- the store goes on

  /** The store after further transactions, each with its time. */
  ghost function After(rules: UrlRules, s: Cluster, log: seq<(Action, int)>): Cluster
    decreases |log|
  {
    if log == [] then s else After(rules, Perform(rules, s, log[0].0, log[0].1), log[1..])
  }

  ghost function StatesAfter(rules: UrlRules, s: Cluster, log: seq<(Action, int)>): seq<Cluster>
    decreases |log|
  {
    if log == [] then []
    else
      var r := Perform(rules, s, log[0].0, log[0].1);
      [r] + StatesAfter(rules, r, log[1..])
  }

  /** Only the sweeper and one analytics worker, which leases for `lease` from the time of its claim. */
  predicate Survivor(action: Action, now: int, worker: Id, lease: nat) {
    match action
    case Sweep(_, _) => true
    case Deliver(_, ClaimBatchStep(_, owner, until)) => owner == worker && until == now + lease
    case Deliver(_, AnalyticsStep(_, owner)) => owner == worker
    case _ => false
  }

  /** Times do not go back. */
  predicate InOrder(log: seq<(Action, int)>, from: int, worker: Id, lease: nat) {
    log == [] || (log[0].1 >= from && Survivor(log[0].0, log[0].1, worker, lease) && InOrder(log[1..], log[0].1, worker, lease))
  }

  lemma {:induction false} HistoryGoesOn(rules: UrlRules, run: seq<Cluster>, log: seq<(Action, int)>, from: int, worker: Id, lease: nat)
    requires IsHistory(rules, run) && from >= Final(run).clock && InOrder(log, from, worker, lease)
    ensures IsHistory(rules, run + StatesAfter(rules, Final(run), log))
    ensures Final(run + StatesAfter(rules, Final(run), log)) == After(rules, Final(run), log)
    decreases |log|
  {
    hide Perform, EmptyStore;
    if log == [] {
      assert run + [] == run;
    } else {
      var s := Final(run);
      var r := Perform(rules, s, log[0].0, log[0].1);
      var more := run + [r];
      assert Transaction(rules, s, r);
      forall i | 0 < i < |more| ensures TransactionAt(rules, more, i) {
        if i < |run| {
          assert TransactionAt(rules, run, i);
        }
      }
      ActionClock(rules, s, log[0].0, log[0].1);
      HistoryGoesOn(rules, more, log[1..], log[0].1, worker, lease);
      assert run + StatesAfter(rules, s, log) == more + StatesAfter(rules, r, log[1..]);
    }
  }

  lemma Goes(rules: UrlRules, s: Cluster, action: Action, now: int)
    requires ClusterOk(rules, s) && s.clock <= now
    ensures ClusterOk(rules, Perform(rules, s, action, now)) && Perform(rules, s, action, now).clock == now
  {
    hide ClusterOk, Perform;
    assert Transaction(rules, s, Perform(rules, s, action, now));
    TransactionKeeps(rules, s, Perform(rules, s, action, now));
    ActionClock(rules, s, action, now);
  }

  lemma ValidIn(rules: UrlRules, s: Cluster, scan: Id)
    requires ClusterOk(rules, s) && scan in s.executions
    ensures Valid(rules, s.executions[scan])
  {
    hide Valid;
  }

  lemma Delivers(rules: UrlRules, s: Cluster, scan: Id, step: Step, now: int)
    requires scan in s.executions && IsDelivery(step)
    ensures var r := Perform(rules, s, Action.Deliver(scan, step), now);
      scan in r.executions && r.executions[scan] == Apply(rules, s.executions[scan], step, now)
  {
    hide Apply;
  }

  lemma DrainedEnds(rules: UrlRules, x: Execution, now: int)
    requires Valid(rules, x) && Drained(x, now) && x.counts.persisting == 0
    ensures Terminal(x.status)
  {
    hide CountersMatch, PagesOk, TreeOk, OutboxOk;
  }

  /** What is left to persist is persisted page by page, and with the last one the scan ends. */
  lemma {:induction false} DrainScan(rules: UrlRules, s: Cluster, scan: Id, worker: Id, lease: nat, now: int) returns (log: seq<(Action, int)>)
    requires ClusterOk(rules, s) && s.clock <= now && scan in s.executions && Drained(s.executions[scan], now)
    ensures InOrder(log, now, worker, lease)
    ensures var r := After(rules, s, log); scan in r.executions && Terminal(r.executions[scan].status)
    decreases s.executions[scan].counts.persisting
  {
    hide ClusterOk, Valid, Drained, Perform, Apply, WithStatus, After, InOrder;
    var x := s.executions[scan];
    ValidIn(rules, s, scan);
    if p :| p in WithStatus(x.pages, PagePersisting) {
      PersistingPositive(rules, x, p);
      var r, claim, complete := PersistInStore(rules, s, scan, p, worker, now + lease, now);
      var rest := DrainScan(rules, r, scan, worker, lease, now);
      log := [(claim, now), (complete, now)] + rest;
      TwoFirst(rules, s, log, worker, lease, now);
    } else {
      NonePersisting(rules, x);
      DrainedEnds(rules, x, now);
      log := [];
      NothingMore(rules, s, worker, lease, now);
    }
  }

  lemma NothingMore(rules: UrlRules, s: Cluster, worker: Id, lease: nat, now: int)
    ensures InOrder([], now, worker, lease) && After(rules, s, []) == s
  {}

  /** The two transactions of the worker on one page, in the store. */
  lemma PersistInStore(rules: UrlRules, s: Cluster, scan: Id, p: Id, worker: Id, until: int, now: int)
    returns (r: Cluster, claim: Action, complete: Action)
    requires ClusterOk(rules, s) && s.clock <= now && scan in s.executions && Drained(s.executions[scan], now)
    requires p in s.executions[scan].pages && s.executions[scan].pages[p].status == PagePersisting
    ensures claim == Action.Deliver(scan, ClaimBatchStep(p, worker, until)) && complete == Action.Deliver(scan, AnalyticsStep(p, worker))
    ensures r == Perform(rules, Perform(rules, s, claim, now), complete, now)
    ensures ClusterOk(rules, r) && r.clock == now && scan in r.executions && Drained(r.executions[scan], now)
    ensures r.executions[scan].counts.persisting == s.executions[scan].counts.persisting - 1
  {
    hide ClusterOk, Valid, Drained, Perform, Apply;
    ValidIn(rules, s, scan);
    PersistOne(rules, s.executions[scan], p, worker, until, now);
    claim := Action.Deliver(scan, ClaimBatchStep(p, worker, until));
    complete := Action.Deliver(scan, AnalyticsStep(p, worker));
    var t := Perform(rules, s, claim, now);
    Goes(rules, s, claim, now);
    Delivers(rules, s, scan, ClaimBatchStep(p, worker, until), now);
    r := Perform(rules, t, complete, now);
    Goes(rules, t, complete, now);
    Delivers(rules, t, scan, AnalyticsStep(p, worker), now);
  }

  lemma PersistingPositive(rules: UrlRules, x: Execution, p: Id)
    requires Valid(rules, x) && p in WithStatus(x.pages, PagePersisting)
    ensures p in x.pages && x.pages[p].status == PagePersisting && x.counts.persisting > 0
  {
    hide PagesOk, TreeOk, StatusOk, OutboxOk;
    CountWitness(x.pages, p);
  }

  lemma NonePersisting(rules: UrlRules, x: Execution)
    requires Valid(rules, x) && !exists p :: p in WithStatus(x.pages, PagePersisting)
    ensures x.counts.persisting == 0
  {
    hide PagesOk, TreeOk, StatusOk, OutboxOk;
    assert WithStatus(x.pages, PagePersisting) == {};
  }

  lemma TwoFirst(rules: UrlRules, s: Cluster, log: seq<(Action, int)>, worker: Id, lease: nat, now: int)
    requires |log| >= 2 && log[0].1 == now && log[1].1 == now
    requires Survivor(log[0].0, now, worker, lease) && Survivor(log[1].0, now, worker, lease) && InOrder(log[2..], now, worker, lease)
    ensures InOrder(log, now, worker, lease)
    ensures After(rules, s, log) == After(rules, Perform(rules, Perform(rules, s, log[0].0, now), log[1].0, now), log[2..])
  {
    hide Perform, Survivor;
    assert log[1..][1..] == log[2..] && log[1..][0] == log[1];
  }

  /**
   * Every scan of every reachable store can still end, though all workers but
   * one analytics worker have stopped: a history goes on from any later time,
   * with times that do not go back, until the scan is terminal.
   */
  lemma ScanCanEnd(rules: UrlRules, run: seq<Cluster>, scan: Id, worker: Id, lease: nat, from: int) returns (log: seq<(Action, int)>)
    requires IsHistory(rules, run) && scan in Final(run).executions && from >= Final(run).clock
    ensures InOrder(log, from, worker, lease)
    ensures var more := run + StatesAfter(rules, Final(run), log);
      IsHistory(rules, more) && scan in Final(more).executions && Terminal(Final(more).executions[scan].status)
  {
    hide ClusterOk, IsHistory, Perform, Reclaim, Drained, Late, Valid, After, StatesAfter;
    HistoryOk(rules, run);
    NotEmpty(rules, run);
    var s := Final(run);
    ValidIn(rules, s, scan);
    var now := LateTime(s.executions[scan], from);
    var sweep := Sweep({}, {});
    var r := Perform(rules, s, sweep, now);
    Goes(rules, s, sweep, now);
    SweptDrained(rules, s.executions[scan], now);
    SweptScan(rules, s, scan, now);
    var rest := DrainScan(rules, r, scan, worker, lease, now);
    log := [(sweep, now)] + rest;
    OneFirst(rules, s, log, rest, from, worker, lease);
    HistoryGoesOn(rules, run, log, from, worker, lease);
  }

  lemma NotEmpty(rules: UrlRules, run: seq<Cluster>)
    requires IsHistory(rules, run)
    ensures |run| > 0
  {}

  lemma OneFirst(rules: UrlRules, s: Cluster, log: seq<(Action, int)>, rest: seq<(Action, int)>, from: int, worker: Id, lease: nat)
    requires |log| > 0 && log == [(Sweep({}, {}), log[0].1)] + rest && log[0].1 >= from && InOrder(rest, log[0].1, worker, lease)
    ensures InOrder(log, from, worker, lease)
    ensures After(rules, s, log) == After(rules, Perform(rules, s, log[0].0, log[0].1), rest)
  {
    hide Perform;
    assert log[1..] == rest;
  }

  lemma SweptScan(rules: UrlRules, s: Cluster, scan: Id, now: int)
    requires scan in s.executions
    ensures var r := Perform(rules, s, Sweep({}, {}), now);
      scan in r.executions && r.executions[scan] == Reclaim(s.executions[scan], false, false, now)
  {
    hide Reclaim;
  }
}
