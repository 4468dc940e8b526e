/** Which pages of an execution are leased, to whom and until when, and how each transaction changes that. */
module PageHolds {
  import opened Common
  import opened Frontier
  import opened FrontierInvariant
  import opened EventLane
  import opened Termination

  datatype Hold = Hold(lease: Lease, generation: nat)

  ghost predicate IsHeld(page: Page) {
    page.status == PageLeased && page.lease.Some?
  }

  ghost function HeldPages(pages: map<Id, Page>): map<Id, Hold> {
    map p | p in pages && IsHeld(pages[p]) :: Hold(pages[p].lease.value, pages[p].generation)
  }

  ghost function Holds(x: Execution): map<Id, Hold> {
    HeldPages(x.pages)
  }

  lemma ClaimHolds(x: Execution, p: Id, owner: Id, until: int, now: int)
    requires p in x.pages
    ensures Holds(ClaimPage(x, p, owner, until, now)) == Holds(x)[p := Hold(Lease(owner, until), x.pages[p].generation + 1)]
  {
    hide Snapshot, Throttled;
  }

  lemma ExtendHolds(x: Execution, p: Id, until: int)
    requires p in Holds(x)
    ensures Holds(ExtendLease(x, p, until)) == Holds(x)[p := Holds(x)[p].(lease := Holds(x)[p].lease.(expiresAt := until))]
  {}

  lemma AddIdle(pages: map<Id, Page>, p: Id, page: Page)
    requires p !in pages && !IsHeld(page)
    ensures HeldPages(pages[p := page]) == HeldPages(pages)
  {}

  lemma {:induction false} InsertHolds(pages: map<Id, Page>, parent: Id, page: Page, urls: seq<string>, ids: seq<Id>, now: int)
    requires |urls| <= |ids| && FreshIds(pages, ids)
    ensures HeldPages(InsertPages(pages, parent, page, urls, ids, now)) == HeldPages(pages)
  {
    if urls != [] {
      var last := |urls| - 1;
      InsertHolds(pages, parent, page, urls[..last], ids, now);
      var before := InsertPages(pages, parent, page, urls[..last], ids, now);
      assert ids[last] !in before;
      hide HeldPages;
      AddIdle(before, ids[last], DiscoveredPage(parent, page, urls[last], now));
    }
  }

  lemma CommitHolds(rules: UrlRules, x: Execution, p: Id, result: PageResult, ids: seq<Id>, retryAt: int, now: int)
    requires p in Holds(x) && FreshIds(x.pages, ids) && |result.links| <= |ids|
    ensures Holds(CommitResult(rules, x, p, result, ids, retryAt, now)) == Holds(x) - {p}
  {
    hide Snapshot, Throttled;
    if !ShouldRetryPage(result, x.pages[p].attempts) {
      var staged := x.pages[p := StagedPage(x.pages[p], result)];
      InsertHolds(staged, p, x.pages[p], NewUrls(rules, x, p, result.links), ids, now);
      assert HeldPages(staged) == Holds(x) - {p};
    }
  }

  lemma AnalyticsHolds(x: Execution, p: Id, now: int)
    requires p in x.batches && p in x.pages && x.pages[p].status == PagePersisting
    requires x.pages[p].pending.Some? && x.pages[p].pending.value != PageLeased
    ensures Holds(CompleteAnalytics(x, p, now)) == Holds(x)
  {
    hide Snapshot, Throttled;
  }

  lemma CancelHolds(x: Execution, version: int, now: int)
    ensures Holds(Cancel(x, version, now)) == map[]
  {
    hide Snapshot, Throttled;
  }

  ghost function Unexpired(holds: map<Id, Hold>, now: int): map<Id, Hold> {
    map p | p in holds && holds[p].lease.expiresAt > now :: holds[p]
  }

  /** Deadline and terminal test touch no leased page. */
  lemma ReclaimHolds(x: Execution, skipLeases: bool, skipDeadline: bool, now: int)
    ensures Holds(Reclaim(x, skipLeases, skipDeadline, now)) == if skipLeases then Holds(x) else Unexpired(Holds(x), now)
  {
    var a := ReclaimDeliveries(x, now);
    var b := if skipLeases then a else ReclaimLeases(a, now);
    assert Holds(b) == if skipLeases then Holds(x) else Unexpired(Holds(x), now) by {
      LeaseHolds(a, now);
    }
    hide ReclaimLeases, Snapshot, Throttled, Unexpired;
    DeadlineHolds(b, now);
  }

  lemma LeaseHolds(x: Execution, now: int)
    ensures Holds(ReclaimLeases(x, now)) == Unexpired(Holds(x), now)
  {
    forall p | p in x.pages ensures PageExpired(x.pages[p], now) <==> p in Holds(x) && p !in Unexpired(Holds(x), now) {}
    if ExpiredSet(x, now) == {} {
      assert forall p :: p in x.pages ==> (PageExpired(x.pages[p], now) <==> p in ExpiredSet(x, now));
    }
  }

  lemma DeadlineHolds(x: Execution, now: int)
    ensures Holds(ReclaimDeadline(x, now)) == Holds(x)
  {}

  /** A transaction of the outboxes leases and releases nothing. */
  lemma DeliveryHolds(rules: UrlRules, x: Execution, step: Step, now: int)
    requires step.ClaimBatchStep? || step.RetryBatchStep? || step.AnalyticsStep?
          || step.ClaimEventStep? || step.CompleteEventStep? || step.RetryEventStep?
    requires Valid(rules, x)
    ensures Holds(Apply(rules, x, step, now)) == Holds(x)
  {
    hide HeldPages;
    if step.AnalyticsStep? {
      if Enabled(x, step, now) {
        assert PageOk(x.pages[step.page], x.host);
        AnalyticsHolds(x, step.page, now);
        hide Valid, CompleteAnalytics;
        assert Apply(rules, x, step, now) == CompleteAnalytics(x, step.page, now);
      }
    } else {
      hide Valid;
      DeliveryPages(rules, x, step, now);
    }
  }
}
