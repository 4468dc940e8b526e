/**
 * The store as the crawler calls it: tables as fields, one method per
 * transaction. A transaction that rolls back leaves before its first write.
 */
module CrawlStore {
  import opened Common
  import opened Frontier
  import opened EventLane
  import opened Cluster
  import opened ClusterInvariant
  import C = Cluster
  import L = Ledger

  class Store {
    const rules: UrlRules
    const hostConcurrency: nat
    const hostDelay: nat
    var executions: map<Id, Execution>
    var owners: map<Id, Id>
    var slots: map<L.SlotKey, L.Slot>
    var inbox: map<Id, Body>
    ghost var issued: map<Id, L.Token>
    ghost var clock: int

    ghost function State(): Cluster
      reads this
    {
      C.Cluster(hostConcurrency, hostDelay, clock, executions, owners, slots, issued, inbox)
    }

    /** Every execution and the tie between page and slot leases are in order. */
    ghost predicate Valid()
      reads this
    {
      ClusterOk(rules, State())
    }

    constructor (rules: UrlRules, hostConcurrency: nat, hostDelay: nat, now: int)
      ensures Valid() && EmptyStore(State())
      ensures this.rules == rules && this.hostConcurrency == hostConcurrency && this.hostDelay == hostDelay
    {
      this.rules, this.hostConcurrency, this.hostDelay := rules, hostConcurrency, hostDelay;
      executions, owners, slots, inbox := map[], map[], map[], map[];
      issued, clock := map[], now;
      new;
      EmptyOk(rules, State());
    }

    /** The last thing every transaction shows: it was one of the actions of the store. */
    lemma Performed(s: Cluster, action: Action, now: int)
      requires ClusterOk(rules, s) && now >= s.clock
      ensures ClusterOk(rules, Perform(rules, s, action, now))
    {
      hide ClusterOk, Perform;
      TransactionKeeps(rules, s, Perform(rules, s, action, now));
    }

    method AcceptCommand(m: Envelope, seed: Id, now: int) returns (outcome: Outcome)
      requires Valid() && now >= clock && m.body.ScanBody?
      modifies this
      ensures Valid()
      ensures outcome == AcceptOutcome(rules, old(State()), m)
      ensures State() == AcceptEffect(rules, old(State()), m, seed, now)
    {
      hide ClusterOk, NewExecution;
      ghost var s := State();
      Performed(s, Action.Accept(m, seed), now);
      clock := now;
      var command := Accepted(m);
      if !ValidCommand(command) {
        return Invalid;
      }
      var url := rules.normalize(m.body.command.targetUrl);
      if url.None? {
        return Invalid;
      }
      if m.id in inbox {
        return if inbox[m.id] == m.body then Duplicate else Collision;
      }
      if m.body.scan in executions {
        var existing := executions[m.body.scan];
        if existing.commandVersion != m.version || existing.seedUrl != url.value {
          return Conflict;
        }
        inbox := inbox[m.id := m.body];
        return IgnoredStale;
      }
      executions := executions[m.body.scan := NewExecution(command, url.value, seed, now)];
      owners := owners[m.body.scan := m.body.owner];
      slots := L.FreshSlots(slots, command.host, hostConcurrency, now);
      inbox := inbox[m.id := m.body];
      outcome := Applied;
    }

    method AcceptCancellation(m: Envelope, now: int) returns (outcome: Outcome)
      requires Valid() && now >= clock && m.body.CancelBody?
      modifies this
      ensures Valid()
      ensures outcome == CancelOutcome(old(State()), m)
      ensures State() == CancelEffect(old(State()), m, now)
    {
      hide ClusterOk, Cancel, LeaseOwners;
      ghost var s := State();
      Performed(s, Action.CancelScan(m), now);
      clock := now;
      if m.version < 1 {
        return Invalid;
      }
      if m.id in inbox {
        return if inbox[m.id] == m.body then Duplicate else Collision;
      }
      if m.body.scan !in executions || m.body.scan !in owners || owners[m.body.scan] != m.body.owner {
        return NotReady;
      }
      var x := executions[m.body.scan];
      if m.version <= x.commandVersion || Terminal(x.status) {
        inbox := inbox[m.id := m.body];
        return IgnoredStale;
      }
      slots := L.ReleasedSlots(slots, x.host, LeaseOwners(x));
      executions := executions[m.body.scan := Cancel(x, m.version, now)];
      inbox := inbox[m.id := m.body];
      outcome := Applied;
    }

    predicate FreeSlot(host: string, n: nat, now: int)
      reads this
    {
      1 <= n <= hostConcurrency && (host, n) in slots && L.SlotFree(slots[(host, n)], now)
    }

    /** The execution query of ClaimPage: a page to lease and a slot to lease it on. */
    predicate HasWork(scan: Id, now: int)
      reads this
    {
      && scan in executions
      && (exists p :: p in executions[scan].pages && Claimable(executions[scan], p, now))
      && (exists n :: 1 <= n <= hostConcurrency && FreeSlot(executions[scan].host, n, now))
    }

    /** The lowest free slot of a host. */
    method LowestSlot(host: string, now: int) returns (n: nat)
      requires exists k :: 1 <= k <= hostConcurrency && FreeSlot(host, k, now)
      ensures FreeSlot(host, n, now) && forall k :: 1 <= k < n ==> !FreeSlot(host, k, now)
    {
      n := 1;
      while !FreeSlot(host, n, now)
        invariant n >= 1 && forall k :: 1 <= k < n ==> !FreeSlot(host, k, now)
        invariant exists k :: n <= k <= hostConcurrency && FreeSlot(host, k, now)
        decreases hostConcurrency - n
      {
        n := n + 1;
      }
    }

    /** Leases one page of one execution on the lowest free slot of its host, or finds that there is none to lease. */
    method ClaimPage(owner: Id, until: int, now: int) returns (lease: Option<L.Token>)
      requires Valid() && now >= clock && owner !in issued
      modifies this
      ensures Valid()
      ensures lease.None? ==>
        && State() == old(State()).(clock := now)
        && forall scan, p, n :: !CanClaim(old(State()), scan, p, n, owner, now)
      ensures lease.Some? ==>
        var s, t := old(State()), lease.value;
        && CanClaim(s, t.scan, t.page, t.slot.1, owner, now) && t == GrantedToken(s, t.scan, t.page, t.slot.1)
        && State() == ClaimEffect(s, t.scan, t.page, t.slot.1, owner, until, now)
        && forall k :: 1 <= k < t.slot.1 && (t.slot.0, k) in s.slots ==> !L.SlotFree(s.slots[(t.slot.0, k)], now)
    {
      hide ClusterOk, Perform, Frontier.ClaimPage;
      ghost var s := State();
      if scan :| scan in executions && HasWork(scan, now) {
        var x := executions[scan];
        var n := LowestSlot(x.host, now);
        var p :| p in x.pages && Claimable(x, p, now);
        var token := L.Token(scan, p, x.pages[p].generation + 1, (x.host, n), slots[(x.host, n)].generation + 1);
        assert CanClaim(s, scan, p, n, owner, now);
        forall k | 1 <= k < n && (x.host, k) in s.slots ensures !L.SlotFree(s.slots[(x.host, k)], now) {
          assert !FreeSlot(x.host, k, now);
        }
        Performed(s, Action.Claim(scan, p, n, owner, until), now);
        clock := now;
        slots := slots[(x.host, n) := L.ClaimedSlot(slots[(x.host, n)], owner, until, hostDelay, now)];
        executions := executions[scan := Frontier.ClaimPage(x, p, owner, until, now)];
        issued := issued[owner := token];
        assert State() == Perform(rules, s, Action.Claim(scan, p, n, owner, until), now) by { ClaimIsPerform(s, scan, p, n, owner, until, now); }
        lease := Some(token);
      } else {
        forall scan: Id, p: Id, n: nat ensures !CanClaim(s, scan, p, n, owner, now) {
          ClaimNeedsWork(scan, p, n, owner, now);
        }
        Performed(s, Action.Claim(0, 0, 0, owner, until), now);
        clock := now;
        assert State() == Perform(rules, s, Action.Claim(0, 0, 0, owner, until), now) by { ClaimIsPerform(s, 0, 0, 0, owner, until, now); }
        lease := None;
      }
    }

    lemma ClaimNeedsWork(scan: Id, p: Id, n: nat, owner: Id, now: int)
      ensures CanClaim(State(), scan, p, n, owner, now) ==> HasWork(scan, now)
    {
      if CanClaim(State(), scan, p, n, owner, now) {
        assert FreeSlot(executions[scan].host, n, now);
      }
    }

    lemma ClaimIsPerform(s: Cluster, scan: Id, p: Id, n: nat, owner: Id, until: int, now: int)
      ensures Perform(rules, s, Action.Claim(scan, p, n, owner, until), now) == ClaimEffect(s, scan, p, n, owner, until, now)
    {
      hide ClaimEffect;
    }

    /** Both rows are extended, or neither is. */
    method ExtendPageLease(owner: Id, t: L.Token, until: int, now: int) returns (ok: bool)
      requires Valid() && now >= clock
      modifies this
      ensures Valid()
      ensures ok == StillHolds(old(State()), owner, t)
      ensures State() == ExtendEffect(old(State()), owner, t, until, now)
    {
      hide ClusterOk, ExtendLease;
      Performed(State(), Action.Extend(owner, t, until), now);
      clock := now;
      if t.scan !in executions || !HoldsLease(executions[t.scan], t.page, owner, t.pageGeneration) {
        return false;
      }
      if !L.HoldsSlot(slots, owner, t) {
        return false;
      }
      executions := executions[t.scan := ExtendLease(executions[t.scan], t.page, until)];
      slots := slots[t.slot := slots[t.slot].(lease := Some(Lease(owner, until)))];
      ok := true;
    }

    /** The page result is committed with the slot's release, or not at all. */
    method CommitPageResult(owner: Id, t: L.Token, result: PageResult, ids: seq<Id>, retryAt: int, now: int) returns (ok: bool)
      requires Valid() && now >= clock
      requires t.scan in executions ==> UsableIds(State(), t, result, ids)
      modifies this
      ensures Valid()
      ensures ok == (StillHolds(old(State()), owner, t) && Storable(old(executions)[t.scan], t.page, result))
      ensures State() == CommitEffect(rules, old(State()), owner, t, result, ids, retryAt, now)
    {
      hide ClusterOk, CommitResult, Snapshot, Throttled;
      ghost var s := State();
      Performed(s, Action.Commit(owner, t, result, ids, retryAt), now);
      clock := now;
      if t.scan !in executions || !HoldsLease(executions[t.scan], t.page, owner, t.pageGeneration) {
        return false;
      }
      if !L.HoldsSlot(slots, owner, t) {
        return false;
      }
      if !Storable(executions[t.scan], t.page, result) {
        return false;
      }
      slots := slots[t.slot := L.Released(slots[t.slot])];
      var x := PageResultRow(executions[t.scan], t.page, result, ids, retryAt, now);
      executions := executions[t.scan := x];
      ok := true;
    }

    /** The execution after a page result: requeued, or staged together with the pages it discovers. */
    method PageResultRow(x: Execution, p: Id, result: PageResult, ids: seq<Id>, retryAt: int, now: int) returns (y: Execution)
      requires p in x.pages && |result.links| <= |ids| && FreshIds(x.pages, ids)
      ensures y == CommitResult(rules, x, p, result, ids, retryAt, now)
    {
      hide Snapshot, Throttled;
      if ShouldRetryPage(result, x.pages[p].attempts) {
        y := RequeueRow(x, p, retryAt);
      } else {
        var pages, discovered := InsertDiscoveredPages(x, p, result, ids, now);
        y := x.(pages := pages,
                batches := x.batches[p := Batch(Pending, 0, now, None)],
                counts := x.counts.(
                  discovered := x.counts.discovered + discovered, queued := x.counts.queued + discovered,
                  leased := x.counts.leased - 1, persisting := x.counts.persisting + 1,
                  expected := x.counts.expected + 1),
                progressVersion := x.progressVersion + 1);
        assert y == StageRow(rules, x, p, result, ids, now);
      }
      y := PublishProgress(y, now);
    }

    /** Stages the page and inserts the pages its links lead to, within the remaining budget and never twice. */
    method InsertDiscoveredPages(x: Execution, p: Id, result: PageResult, ids: seq<Id>, now: int)
      returns (pages: map<Id, Page>, inserted: nat)
      requires p in x.pages && |result.links| <= |ids| && FreshIds(x.pages, ids)
      ensures var urls := NewUrls(rules, x, p, result.links);
        && inserted == |urls|
        && pages == InsertPages(x.pages[p := StagedPage(x.pages[p], result)], p, x.pages[p], urls, ids, now)
    {
      hide FreshIds, Urls, Discover, InsertPages, StagedPage;
      var page := x.pages[p];
      pages, inserted := x.pages[p := StagedPage(page, result)], 0;
      NoneInserted(pages, p, page, ids, now);
      if page.depth >= x.maxDepth {
        return;
      }
      var remaining := x.maxPages - x.counts.discovered;
      if remaining <= 0 {
        return;
      }
      StagedUrls(x.pages, p, result);
      StagedFresh(x.pages, p, result, ids);
      pages, inserted := FollowLinks(x.host, pages, p, page, result.links, ids, remaining, now);
    }

    /** The loop over the links: the rows it inserts are those of the discovered URLs, in their order. */
    method FollowLinks(host: string, staged: map<Id, Page>, p: Id, page: Page, links: seq<Link>, ids: seq<Id>, remaining: nat, now: int)
      returns (pages: map<Id, Page>, inserted: nat)
      requires |links| <= |ids| && FreshIds(staged, ids)
      ensures var urls := Discover(rules, host, links, Urls(staged), remaining);
        inserted == |urls| && pages == InsertPages(staged, p, page, urls, ids, now)
    {
      hide FreshIds, Urls, Discover, InsertPages, Set, DiscoveredPage;
      ghost var known := Urls(staged);
      ghost var urls: seq<string> := [];
      var seen := {};
      pages, inserted := staged, 0;
      NoneFound(host, links, known, remaining);
      NoneInserted(staged, p, page, ids, now);
      for k := 0 to |links|
        invariant urls == Discover(rules, host, links[..k], known, remaining) && inserted == |urls| <= k
        invariant pages == InsertPages(staged, p, page, urls, ids, now)
        invariant Urls(pages) == known + Set(urls) && seen <= Urls(pages)
      {
        DiscoverNext(host, links, k, known, remaining);
        SetMembers(urls);
        if inserted >= remaining || !links[k].isInternal || !links[k].isFollowable {
          continue;
        }
        var normalized := rules.normalize(links[k].target);
        if normalized.None? || !rules.inScope(normalized.value, host) {
          continue;
        }
        if normalized.value in seen {
          continue;
        }
        seen := seen + {normalized.value};
        if normalized.value !in Urls(pages) {
          InsertOne(staged, p, page, urls, ids, now, normalized.value);
          SetGrows(urls, normalized.value);
          pages := pages[ids[inserted] := DiscoveredPage(p, page, normalized.value, now)];
          urls := urls + [normalized.value];
          inserted := inserted + 1;
        }
      }
      assert links[..|links|] == links;
    }

    ghost function Set(urls: seq<string>): set<string> {
      set u | u in urls
    }

    lemma NoneFound(host: string, links: seq<Link>, known: set<string>, remaining: nat)
      ensures Discover(rules, host, links[..0], known, remaining) == [] && Set([]) == {}
    {}

    lemma SetMembers(urls: seq<string>)
      ensures forall u :: u in Set(urls) <==> u in urls
    {}

    lemma SetGrows(urls: seq<string>, url: string)
      ensures Set(urls + [url]) == Set(urls) + {url}
    {}

    lemma DiscoverNext(host: string, links: seq<Link>, k: nat, known: set<string>, remaining: nat)
      requires k < |links|
      ensures var before := Discover(rules, host, links[..k], known, remaining);
        Discover(rules, host, links[..k + 1], known, remaining) == Found(rules, host, links[k], known, remaining, before)
    {
      assert links[..k + 1][..k] == links[..k];
    }

    lemma NoneInserted(pages: map<Id, Page>, p: Id, page: Page, ids: seq<Id>, now: int)
      ensures InsertPages(pages, p, page, [], ids, now) == pages
    {}

    lemma StagedFresh(pages: map<Id, Page>, p: Id, result: PageResult, ids: seq<Id>)
      requires p in pages && FreshIds(pages, ids)
      ensures FreshIds(pages[p := StagedPage(pages[p], result)], ids)
    {}

    lemma StagedUrls(pages: map<Id, Page>, p: Id, result: PageResult)
      requires p in pages
      ensures Urls(pages[p := StagedPage(pages[p], result)]) == Urls(pages)
    {
      var staged := pages[p := StagedPage(pages[p], result)];
      forall u | u in Urls(pages) ensures u in Urls(staged) {
        var q :| q in pages && pages[q].url == u;
        assert staged[q].url == u;
      }
      forall u | u in Urls(staged) ensures u in Urls(pages) {
        var q :| q in staged && staged[q].url == u;
        assert pages[q].url == u;
      }
    }

    /** One more row: the pages and the URLs grow by it. */
    lemma InsertOne(base: map<Id, Page>, p: Id, page: Page, urls: seq<string>, ids: seq<Id>, now: int, url: string)
      requires |urls| < |ids| && FreshIds(base, ids)
      ensures var before := InsertPages(base, p, page, urls, ids, now);
        var after := InsertPages(base, p, page, urls + [url], ids, now);
        && after == before[ids[|urls|] := DiscoveredPage(p, page, url, now)]
        && Urls(after) == Urls(before) + {url}
    {
      var before := InsertPages(base, p, page, urls, ids, now);
      var more := urls + [url];
      assert more[..|urls|] == urls && more[|urls|] == url;
      var after := InsertPages(base, p, page, more, ids, now);
      assert ids[|urls|] !in before;
      forall u | u in Urls(before) ensures u in Urls(after) {
        var q :| q in before && before[q].url == u;
        assert after[q].url == u;
      }
      assert after[ids[|urls|]].url == url;
      forall u | u in Urls(after) ensures u in Urls(before) || u == url {
        var q :| q in after && after[q].url == u;
        if q != ids[|urls|] {
          assert before[q].url == u;
        }
      }
    }

    /** Acknowledges an analytics row, finalises its page and, when nothing is left, the scan. */
    method CompleteAnalytics(scan: Id, p: Id, owner: Id, now: int) returns (ok: bool)
      requires Valid() && now >= clock
      modifies this
      ensures Valid()
      ensures ok == (scan in old(executions) && Enabled(old(executions)[scan], AnalyticsStep(p, owner), now))
      ensures State() == DeliverEffect(rules, old(State()), scan, AnalyticsStep(p, owner), now)
    {
      hide ClusterOk, Snapshot, Throttled, Frontier.CompleteAnalytics;
      Performed(State(), Action.Deliver(scan, AnalyticsStep(p, owner)), now);
      clock := now;
      if scan !in executions {
        return false;
      }
      var x := executions[scan];
      assert executions[scan := x] == executions;
      if !HoldsBatch(x, p, owner) || p !in x.pages || x.pages[p].status != PagePersisting || x.pages[p].pending.None? {
        return false;
      }
      var y := FinalizedRow(x, p, now);
      executions := executions[scan := y];
      ok := true;
    }

    /** The page takes its pending status, then the execution is tested for its end. */
    method FinalizedRow(x: Execution, p: Id, now: int) returns (y: Execution)
      requires p in x.batches && p in x.pages && x.pages[p].pending.Some?
      ensures y == Frontier.CompleteAnalytics(x, p, now)
    {
      hide Snapshot, Throttled;
      var status := x.pages[p].pending.value;
      var success, skipped, failure := 0, 0, 0;
      match status {
        case PageSucceeded => success := 1;
        case PageSkipped => skipped := 1;
        case _ => failure := 1;
      }
      y := x.(batches := x.batches[p := x.batches[p].(status := Delivered, lease := None)],
              pages := x.pages[p := x.pages[p].(status := status, pending := None)],
              counts := x.counts.(
                persisting := x.counts.persisting - 1, succeeded := x.counts.succeeded + success,
                skipped := x.counts.skipped + skipped, failed := x.counts.failed + failure,
                published := x.counts.published + 1),
              progressVersion := x.progressVersion + 1);
      assert y == FinalizePage(x, p);
      if Quiescent(y) && y.counts.published == y.counts.expected {
        y := y.(status := FinalStatus(y),
                terminalCode := if y.status == CancelRequested then USER_CANCELLED else y.terminalCode,
                progressVersion := y.progressVersion + 1);
      }
      y := PublishProgress(y, now);
    }

    // ------------------------------------------------------------------ outboxes

    /** The store after the outbox transactions of a batch, one after the other. */
    ghost function Delivering(s: Cluster, batch: seq<(Id, Step)>, now: int): Cluster {
      if batch == [] then s.(clock := now)
      else DeliverEffect(rules, Delivering(s, batch[..|batch| - 1], now), batch[|batch| - 1].0, batch[|batch| - 1].1, now)
    }

    lemma DeliveringMore(s: Cluster, batch: seq<(Id, Step)>, scan: Id, step: Step, now: int)
      ensures Delivering(s, [], now) == s.(clock := now)
      ensures Delivering(s, batch + [(scan, step)], now) == DeliverEffect(rules, Delivering(s, batch, now), scan, step, now)
    {
      assert (batch + [(scan, step)])[..|batch|] == batch;
    }

    /** One outbox row changes hands: the execution takes the step. */
    method Take(scan: Id, y: Execution, ghost step: Step, now: int)
      requires Valid() && now >= clock && scan in executions && IsDelivery(step) && y == Apply(rules, executions[scan], step, now)
      modifies this
      ensures Valid() && State() == DeliverEffect(rules, old(State()), scan, step, now)
      ensures executions == old(executions)[scan := y] && clock == now
    {
      hide ClusterOk, Apply;
      Performed(State(), Action.Deliver(scan, step), now);
      clock := now;
      executions := executions[scan := y];
    }

    lemma NothingTaken(now: int)
      requires Valid() && now >= clock
      ensures ClusterOk(rules, State().(clock := now))
    {
      hide ClusterOk;
      Performed(State(), Action.Deliver(0, ReclaimStep(false, false)), now);
    }

    /** Claims up to `limit` events, of each scan the first that is not delivered; fewer only when no other is due. */
    method ClaimEvents(owner: Id, limit: nat, until: int, now: int) returns (batch: seq<(Id, nat)>)
      requires Valid() && now >= clock
      modifies this
      ensures Valid() && |batch| <= limit
      ensures State() == Delivering(old(State()), EventSteps(batch, owner, until), now)
      ensures |batch| < limit ==> forall scan, i :: scan in executions ==> !EventClaimable(executions[scan].outbox, i, now)
      ensures forall k :: 0 <= k < |batch| ==>
        batch[k].0 in old(executions) && EventClaimable(old(executions)[batch[k].0].outbox, batch[k].1, now)
    {
      hide ClusterOk, Apply, EventClaimable, Delivering, DeliverEffect, EventSteps, ClaimEvent;
      ghost var s := State();
      batch := [];
      NothingTaken(now);
      clock := now;
      DeliveringMore(s, [], 0, ReclaimStep(false, false), now);
      assert EventSteps(batch, owner, until) == [] by { EventStepsMore([], 0, 0, owner, until); }
      while |batch| < limit
        invariant Valid() && clock == now && |batch| <= limit
        invariant State() == Delivering(s, EventSteps(batch, owner, until), now)
        invariant executions.Keys == s.executions.Keys
        invariant forall scan :: scan in executions ==>
          executions[scan] == s.executions[scan] || forall i :: !EventClaimable(executions[scan].outbox, i, now)
        invariant forall k :: 0 <= k < |batch| ==>
          batch[k].0 in s.executions && EventClaimable(s.executions[batch[k].0].outbox, batch[k].1, now)
      {
        if scan, i :| scan in executions && 0 <= i < |executions[scan].outbox| && EventClaimable(executions[scan].outbox, i, now) {
          ghost var step := ClaimEventStep(i, owner, until);
          var y := ClaimEvent(executions[scan], i, owner, until);
          EventTaken(executions[scan], i, owner, until, now);
          DeliveringMore(s, EventSteps(batch, owner, until), scan, step, now);
          EventStepsMore(batch, scan, i, owner, until);
          Take(scan, y, step, now);
          batch := batch + [(scan, i)];
        } else {
          NoneClaimable(now);
          return;
        }
      }
    }

    ghost function EventSteps(batch: seq<(Id, nat)>, owner: Id, until: int): seq<(Id, Step)> {
      seq(|batch|, k requires 0 <= k < |batch| => (batch[k].0, ClaimEventStep(batch[k].1, owner, until)))
    }

    lemma EventStepsMore(batch: seq<(Id, nat)>, scan: Id, i: nat, owner: Id, until: int)
      ensures EventSteps([], owner, until) == []
      ensures EventSteps(batch + [(scan, i)], owner, until) == EventSteps(batch, owner, until) + [(scan, ClaimEventStep(i, owner, until))]
    {}

    lemma NoneClaimable(now: int)
      requires forall scan, i :: scan in executions && 0 <= i < |executions[scan].outbox| ==> !EventClaimable(executions[scan].outbox, i, now)
      ensures forall scan, i :: scan in executions ==> !EventClaimable(executions[scan].outbox, i, now)
    {}

    /** A claimed event keeps every other event of its scan from being claimed. */
    lemma EventTaken(x: Execution, i: nat, owner: Id, until: int, now: int)
      requires EventClaimable(x.outbox, i, now)
      ensures ClaimEvent(x, i, owner, until) == Apply(rules, x, ClaimEventStep(i, owner, until), now)
      ensures forall j :: !EventClaimable(ClaimEvent(x, i, owner, until).outbox, j, now)
    {
      assert ClaimEvent(x, i, owner, until).outbox[i].status == Claimed;
    }

    method CompleteEvent(scan: Id, i: nat, owner: Id, now: int) returns (ok: bool)
      requires Valid() && now >= clock
      modifies this
      ensures Valid() && State() == DeliverEffect(rules, old(State()), scan, CompleteEventStep(i, owner), now)
      ensures ok <==> scan in old(executions) && HoldsEvent(old(executions)[scan].outbox, i, owner) && old(executions)[scan].outbox[i].lease.value.expiresAt > now
    {
      hide ClusterOk;
      if scan !in executions {
        NothingTaken(now);
        clock := now;
        return false;
      }
      var x := executions[scan];
      ok := HoldsEvent(x.outbox, i, owner) && x.outbox[i].lease.value.expiresAt > now;
      Take(scan, if ok then Frontier.CompleteEvent(x, i) else x, CompleteEventStep(i, owner), now);
    }

    /** Back to the queue, or dead after twenty deliveries, which may still be claimed later. */
    method RetryEvent(scan: Id, i: nat, owner: Id, retryAt: int, now: int) returns (ok: bool)
      requires Valid() && now >= clock
      modifies this
      ensures Valid() && State() == DeliverEffect(rules, old(State()), scan, RetryEventStep(i, owner, retryAt), now)
      ensures ok <==> scan in old(executions) && HoldsEvent(old(executions)[scan].outbox, i, owner)
    {
      hide ClusterOk;
      if scan !in executions {
        NothingTaken(now);
        clock := now;
        return false;
      }
      var x := executions[scan];
      ok := HoldsEvent(x.outbox, i, owner);
      Take(scan, if ok then Frontier.RetryEvent(x, i, retryAt) else x, RetryEventStep(i, owner, retryAt), now);
    }

    /** Claims up to `limit` analytics rows; fewer only when no other is due. */
    method ClaimAnalytics(owner: Id, limit: nat, until: int, now: int) returns (batch: seq<(Id, Id)>)
      requires Valid() && now >= clock
      modifies this
      ensures Valid() && |batch| <= limit
      ensures State() == Delivering(old(State()), BatchSteps(batch, owner, until), now)
      ensures |batch| < limit ==> forall scan, p :: scan in executions ==> !BatchClaimable(executions[scan], p, now)
    {
      hide ClusterOk, Apply;
      ghost var s := State();
      batch := [];
      NothingTaken(now);
      clock := now;
      DeliveringMore(s, [], 0, ReclaimStep(false, false), now);
      while |batch| < limit
        invariant Valid() && clock == now && |batch| <= limit
        invariant State() == Delivering(s, BatchSteps(batch, owner, until), now)
      {
        if scan, p :| scan in executions && p in executions[scan].batches && BatchClaimable(executions[scan], p, now) {
          ghost var step := ClaimBatchStep(p, owner, until);
          var y := ClaimBatch(executions[scan], p, owner, until);
          BatchTaken(executions[scan], p, owner, until, now);
          DeliveringMore(s, BatchSteps(batch, owner, until), scan, step, now);
          assert BatchSteps(batch + [(scan, p)], owner, until) == BatchSteps(batch, owner, until) + [(scan, step)];
          Take(scan, y, step, now);
          batch := batch + [(scan, p)];
        } else {
          return;
        }
      }
    }

    ghost function BatchSteps(batch: seq<(Id, Id)>, owner: Id, until: int): seq<(Id, Step)> {
      seq(|batch|, k requires 0 <= k < |batch| => (batch[k].0, ClaimBatchStep(batch[k].1, owner, until)))
    }

    lemma BatchTaken(x: Execution, p: Id, owner: Id, until: int, now: int)
      requires BatchClaimable(x, p, now)
      ensures ClaimBatch(x, p, owner, until) == Apply(rules, x, ClaimBatchStep(p, owner, until), now)
    {}

    method RetryAnalytics(scan: Id, p: Id, owner: Id, retryAt: int, now: int) returns (ok: bool)
      requires Valid() && now >= clock
      modifies this
      ensures Valid() && State() == DeliverEffect(rules, old(State()), scan, RetryBatchStep(p, owner, retryAt), now)
      ensures ok <==> scan in old(executions) && HoldsBatch(old(executions)[scan], p, owner)
    {
      hide ClusterOk;
      if scan !in executions {
        NothingTaken(now);
        clock := now;
        return false;
      }
      var x := executions[scan];
      ok := HoldsBatch(x, p, owner);
      Take(scan, if ok then RetryBatch(x, p, retryAt) else x, RetryBatchStep(p, owner, retryAt), now);
    }

    // -------------------------------------------------------------- reclamation

    /** UPDATE analytics_outbox: the claimed rows whose lease has run out. */
    method ReturnBatches(batches: map<Id, Batch>, now: int) returns (rows: map<Id, Batch>)
      ensures rows == map p | p in batches :: ReclaimedBatch(batches[p], now)
    {
      rows := batches;
      var todo := batches.Keys;
      while todo != {}
        invariant todo <= batches.Keys == rows.Keys
        invariant forall p :: p in batches ==> rows[p] == if p in todo then batches[p] else ReclaimedBatch(batches[p], now)
        decreases |todo|
      {
        var p :| p in todo;
        if rows[p].status == Claimed && rows[p].lease.Some? && rows[p].lease.value.expiresAt <= now {
          rows := rows[p := Batch(Pending, rows[p].attempts, now, None)];
        }
        todo := todo - {p};
      }
    }

    /** UPDATE outbox_events: the same for the events. */
    method ReturnEvents(outbox: seq<Event>, now: int) returns (rows: seq<Event>)
      ensures |rows| == |outbox| && forall i :: 0 <= i < |outbox| ==> rows[i] == ReclaimedEvent(outbox[i], now)
    {
      rows := [];
      for i := 0 to |outbox|
        invariant |rows| == i && forall j :: 0 <= j < i ==> rows[j] == ReclaimedEvent(outbox[j], now)
      {
        var event := outbox[i];
        if event.status == Claimed && event.lease.Some? && event.lease.value.expiresAt <= now {
          event := event.(status := Pending, lease := None, availableAt := now);
        }
        rows := rows + [event];
      }
    }

    /** The rows a statement has gone through, and those still to come. */
    ghost predicate Rows(before: map<Id, Page>, after: map<Id, Page>, todo: set<Id>, f: Page -> Page) {
      && todo <= before.Keys == after.Keys
      && forall p :: p in before ==> after[p] == if p in todo then before[p] else f(before[p])
    }

    lemma RowsOne(before: map<Id, Page>, after: map<Id, Page>, todo: set<Id>, f: Page -> Page, p: Id, row: Page)
      requires Rows(before, after, todo, f) && p in todo && row == f(before[p])
      ensures Rows(before, after[p := row], todo - {p}, f) && after[p] == before[p]
    {}

    lemma NoRowYet(pages: map<Id, Page>, f: Page -> Page)
      ensures Rows(pages, pages, pages.Keys, f)
    {}

    lemma AllRows(before: map<Id, Page>, after: map<Id, Page>, f: Page -> Page)
      requires Rows(before, after, {}, f)
      ensures after == map p | p in before :: f(before[p])
    {}

    ghost function Expire(now: int): Page -> Page {
      (page: Page) => ExpiredPage(page, now)
    }

    ghost function Overdue(): Page -> Page {
      (page: Page) => OverduePage(page)
    }

    /** Counting the members of a set on the way through a list of rows. */
    ghost predicate Counted(rows: set<Id>, todo: set<Id>, count: nat) {
      count == |rows - todo|
    }

    lemma CountedOne(rows: set<Id>, todo: set<Id>, p: Id, count: nat)
      requires Counted(rows, todo, count) && p in todo
      ensures Counted(rows, todo - {p}, if p in rows then count + 1 else count)
    {
      if p in rows {
        assert rows - (todo - {p}) == (rows - todo) + {p};
      } else {
        assert rows - (todo - {p}) == rows - todo;
      }
    }

    lemma NoneCounted(rows: set<Id>, todo: set<Id>)
      requires rows <= todo
      ensures Counted(rows, todo, 0)
    {
      assert rows - todo == {};
    }

    lemma AllCounted(rows: set<Id>, count: nat)
      requires Counted(rows, {}, count)
      ensures count == |rows| && (count > 0 <==> rows != {})
    {
      assert rows - {} == rows;
    }

    lemma ExpiredMembers(x: Execution, now: int)
      ensures ExpiredSet(x, now) <= x.pages.Keys && SpentSet(x, now) <= ExpiredSet(x, now)
      ensures forall p :: p in ExpiredSet(x, now) <==> p in x.pages && PageExpired(x.pages[p], now)
      ensures forall p :: p in SpentSet(x, now) <==> p in ExpiredSet(x, now) && x.pages[p].attempts >= MAX_ATTEMPTS
    {}

    /** One page row: queued again, failed after three attempts, or left alone. */
    method ExpireRow(page: Page, now: int) returns (row: Page, requeue: bool, fail: bool)
      ensures row == ExpiredPage(page, now)
      ensures requeue <==> PageExpired(page, now) && page.attempts < MAX_ATTEMPTS
      ensures fail <==> PageExpired(page, now) && page.attempts >= MAX_ATTEMPTS
    {
      row, requeue, fail := page, false, false;
      if page.status == PageLeased && page.lease.Some? && page.lease.value.expiresAt <= now {
        if page.attempts >= MAX_ATTEMPTS {
          row, fail := page.(status := PageFailed, lease := None, availableAt := now), true;
        } else {
          row, requeue := page.(status := PageQueued, lease := None, availableAt := now), true;
        }
      }
    }

    /** Where a pass over the pages of an execution has come: the rows, and what was counted. */
    ghost predicate Passed(x: Execution, now: int, todo: set<Id>, rows: map<Id, Page>, requeued: nat, failed: nat) {
      && Rows(x.pages, rows, todo, Expire(now))
      && Counted(ExpiredSet(x, now) - SpentSet(x, now), todo, requeued)
      && Counted(SpentSet(x, now), todo, failed)
    }

    lemma PassBegins(x: Execution, now: int)
      ensures Passed(x, now, x.pages.Keys, x.pages, 0, 0)
    {
      hide ExpiredSet, SpentSet, Rows, Counted;
      ExpiredMembers(x, now);
      NoRowYet(x.pages, Expire(now));
      NoneCounted(SpentSet(x, now), x.pages.Keys);
      NoneCounted(ExpiredSet(x, now) - SpentSet(x, now), x.pages.Keys);
    }

    lemma PassedOne(x: Execution, now: int, todo: set<Id>, rows: map<Id, Page>, requeued: nat, failed: nat, p: Id, row: Page, requeue: bool, fail: bool)
      requires Passed(x, now, todo, rows, requeued, failed) && p in todo && p in x.pages
      requires row == ExpiredPage(x.pages[p], now)
      requires requeue <==> PageExpired(x.pages[p], now) && x.pages[p].attempts < MAX_ATTEMPTS
      requires fail <==> PageExpired(x.pages[p], now) && x.pages[p].attempts >= MAX_ATTEMPTS
      ensures Passed(x, now, todo - {p}, rows[p := row], if requeue then requeued + 1 else requeued, if fail then failed + 1 else failed)
    {
      hide ExpiredSet, SpentSet, Rows, Counted, ExpiredPage, PageExpired;
      ExpiredMembers(x, now);
      CountedOne(SpentSet(x, now), todo, p, failed);
      CountedOne(ExpiredSet(x, now) - SpentSet(x, now), todo, p, requeued);
      RowsOne(x.pages, rows, todo, Expire(now), p, row);
    }

    lemma PassEnds(x: Execution, now: int, rows: map<Id, Page>, requeued: nat, failed: nat)
      requires Passed(x, now, {}, rows, requeued, failed)
      ensures rows == map p | p in x.pages :: ExpiredPage(x.pages[p], now)
      ensures requeued == |ExpiredSet(x, now) - SpentSet(x, now)| && failed == |SpentSet(x, now)|
    {
      hide ExpiredSet, SpentSet, Rows, Counted, ExpiredPage;
      AllRows(x.pages, rows, Expire(now));
      AllCounted(SpentSet(x, now), failed);
      AllCounted(ExpiredSet(x, now) - SpentSet(x, now), requeued);
    }

    /** One pass over the pages of an execution: expired leases are taken back and counted by what becomes of them. */
    method ExpireRows(x: Execution, now: int) returns (rows: map<Id, Page>, requeued: nat, failed: nat)
      ensures rows == map p | p in x.pages :: ExpiredPage(x.pages[p], now)
      ensures requeued == |ExpiredSet(x, now) - SpentSet(x, now)| && failed == |SpentSet(x, now)|
    {
      hide *;
      var todo := x.pages.Keys;
      rows, requeued, failed := x.pages, 0, 0;
      PassBegins(x, now);
      while todo != {}
        invariant todo <= x.pages.Keys && Passed(x, now, todo, rows, requeued, failed)
        decreases |todo|
      {
        var p :| p in todo;
        var row, requeue, fail := ExpireRow(x.pages[p], now);
        PassedOne(x, now, todo, rows, requeued, failed, p, row, requeue, fail);
        rows := rows[p := row];
        requeued := if requeue then requeued + 1 else requeued;
        failed := if fail then failed + 1 else failed;
        todo := todo - {p};
      }
      PassEnds(x, now, rows, requeued, failed);
    }

    /** The expired leases of one execution, and its counters from what was counted on the way. */
    method ReclaimPageRows(x: Execution, now: int) returns (y: Execution, hit: bool)
      ensures y == ReclaimLeases(x, now)
      ensures (hit <==> y.progressVersion != x.progressVersion) && (!hit ==> y == x)
    {
      hide ExpiredSet, SpentSet, ExpiredPage;
      var rows, requeued, failed := ExpireRows(x, now);
      ExpiredMembers(x, now);
      Split(ExpiredSet(x, now), SpentSet(x, now));
      hit := requeued + failed > 0;
      y := x;
      if hit {
        y := x.(pages := rows,
                counts := x.counts.(leased := x.counts.leased - (requeued + failed), queued := x.counts.queued + requeued,
                                    failed := x.counts.failed + failed),
                progressVersion := x.progressVersion + 1);
      }
    }

    lemma Split(all: set<Id>, part: set<Id>)
      requires part <= all
      ensures |all| == |all - part| + |part| && (|all| > 0 <==> all != {})
    {
      assert all == (all - part) + part;
    }

    /** One pass over the pages of an execution: what is queued fails, and is counted. */
    method FailQueued(x: Execution) returns (rows: map<Id, Page>, total: nat)
      ensures rows == map p | p in x.pages :: OverduePage(x.pages[p])
      ensures total == |WithStatus(x.pages, PageQueued)| && (total > 0 <==> WithStatus(x.pages, PageQueued) != {})
    {
      hide Rows, Counted;
      ghost var overdue := WithStatus(x.pages, PageQueued);
      var todo := x.pages.Keys;
      rows, total := x.pages, 0;
      NoRowYet(x.pages, Overdue());
      NoneCounted(overdue, todo);
      while todo != {}
        invariant todo <= x.pages.Keys && Rows(x.pages, rows, todo, Overdue())
        invariant Counted(overdue, todo, total)
        decreases |todo|
      {
        var p :| p in todo;
        var page := x.pages[p];
        CountedOne(overdue, todo, p, total);
        if page.status == PageQueued {
          total := total + 1;
          page := page.(status := PageFailed);
        }
        RowsOne(x.pages, rows, todo, Overdue(), p, page);
        rows := rows[p := page];
        todo := todo - {p};
      }
      AllRows(x.pages, rows, Overdue());
      AllCounted(overdue, total);
    }

    /** The queue of one execution, once its deadline has passed. */
    method FailOverdueRows(x: Execution, now: int) returns (y: Execution, hit: bool)
      ensures y == ReclaimDeadline(x, now)
      ensures (hit <==> y.progressVersion != x.progressVersion) && (!hit ==> y == x)
    {
      hide WithStatus, OverduePage;
      y, hit := x, false;
      if (x.status == Queued || x.status == Running) && x.deadline <= now {
        var rows, total := FailQueued(x);
        hit := total > 0;
        if hit {
          y := x.(pages := rows,
                  counts := x.counts.(queued := x.counts.queued - total, failed := x.counts.failed + total),
                  terminalCode := DEADLINE_EXCEEDED,
                  progressVersion := x.progressVersion + 1);
        }
      }
    }

    /** What a statement has made of the executions, apart from those still to come, and whose progress it has moved. */
    ghost predicate Through(before: map<Id, Execution>, after: map<Id, Execution>, hit: set<Id>, todo: set<Id>, f: (Id, Execution) -> Execution) {
      && todo <= before.Keys == after.Keys
      && (forall scan :: scan in before ==> after[scan] == if scan in todo then before[scan] else f(scan, before[scan]))
      && (forall scan :: scan in hit <==> scan in before && after[scan].progressVersion != before[scan].progressVersion)
    }

    lemma ThroughOne(before: map<Id, Execution>, after: map<Id, Execution>, hit: set<Id>, todo: set<Id>, f: (Id, Execution) -> Execution,
                     scan: Id, y: Execution, changed: bool)
      requires Through(before, after, hit, todo, f) && scan in todo && y == f(scan, before[scan])
      requires changed <==> y.progressVersion != before[scan].progressVersion
      ensures Through(before, after[scan := y], if changed then hit + {scan} else hit, todo - {scan}, f)
    {}

    ghost function DeliveryRow(now: int): (Id, Execution) -> Execution {
      (scan: Id, x: Execution) => ReclaimDeliveries(x, now)
    }

    ghost function LeaseRow(skip: set<Id>, now: int): (Id, Execution) -> Execution {
      (scan: Id, x: Execution) => if scan in skip then x else ReclaimLeases(x, now)
    }

    ghost function DeadlineRow(skip: set<Id>, now: int): (Id, Execution) -> Execution {
      (scan: Id, x: Execution) => if scan in skip then x else ReclaimDeadline(x, now)
    }

    ghost function EndRow(): (Id, Execution) -> Execution {
      (scan: Id, x: Execution) => Terminalize(x)
    }

    /** The first two statements: the leases of both outboxes. */
    method ReturnDeliveries(now: int)
      modifies `executions
      ensures Through(old(executions), executions, {}, {}, DeliveryRow(now))
    {
      hide Through, ReclaimedBatch, ReclaimedEvent;
      var todo := executions.Keys;
      Untouched(executions, DeliveryRow(now));
      while todo != {}
        invariant Through(old(executions), executions, {}, todo, DeliveryRow(now))
        decreases |todo|
      {
        var scan :| scan in todo;
        StillToCome(old(executions), executions, {}, todo, DeliveryRow(now), scan);
        var x := executions[scan];
        var batches := ReturnBatches(x.batches, now);
        var outbox := ReturnEvents(x.outbox, now);
        var y := x.(batches := batches, outbox := outbox);
        assert y.outbox == ReclaimDeliveries(x, now).outbox;
        assert y == DeliveryRow(now)(scan, x);
        ThroughOne(old(executions), executions, {}, todo, DeliveryRow(now), scan, y, false);
        executions := executions[scan := y];
        todo := todo - {scan};
      }
    }

    lemma Untouched(rows: map<Id, Execution>, f: (Id, Execution) -> Execution)
      ensures Through(rows, rows, {}, rows.Keys, f)
    {}

    lemma StillToCome(before: map<Id, Execution>, after: map<Id, Execution>, hit: set<Id>, todo: set<Id>, f: (Id, Execution) -> Execution, scan: Id)
      requires Through(before, after, hit, todo, f) && scan in todo
      ensures scan in before && scan in after && after[scan] == before[scan]
    {}

    /** The third statement: the page leases of every execution that is not locked; it tells which it changed. */
    method ReclaimPageLeases(skip: set<Id>, now: int) returns (hit: set<Id>)
      modifies `executions
      ensures Through(old(executions), executions, hit, {}, LeaseRow(skip, now))
    {
      hide Through, ReclaimLeases;
      var todo := executions.Keys;
      hit := {};
      Untouched(executions, LeaseRow(skip, now));
      while todo != {}
        invariant Through(old(executions), executions, hit, todo, LeaseRow(skip, now))
        decreases |todo|
      {
        var scan :| scan in todo;
        StillToCome(old(executions), executions, hit, todo, LeaseRow(skip, now), scan);
        var y, changed := executions[scan], false;
        if scan !in skip {
          y, changed := ReclaimPageRows(executions[scan], now);
        }
        ThroughOne(old(executions), executions, hit, todo, LeaseRow(skip, now), scan, y, changed);
        executions := executions[scan := y];
        hit := if changed then hit + {scan} else hit;
        todo := todo - {scan};
      }
    }

    /** The fourth statement: the queues of every execution past its deadline that is not locked. */
    method FailOverdue(skip: set<Id>, now: int) returns (hit: set<Id>)
      modifies `executions
      ensures Through(old(executions), executions, hit, {}, DeadlineRow(skip, now))
    {
      hide Through, ReclaimDeadline;
      var todo := executions.Keys;
      hit := {};
      Untouched(executions, DeadlineRow(skip, now));
      while todo != {}
        invariant Through(old(executions), executions, hit, todo, DeadlineRow(skip, now))
        decreases |todo|
      {
        var scan :| scan in todo;
        StillToCome(old(executions), executions, hit, todo, DeadlineRow(skip, now), scan);
        var y, changed := executions[scan], false;
        if scan !in skip {
          y, changed := FailOverdueRows(executions[scan], now);
        }
        ThroughOne(old(executions), executions, hit, todo, DeadlineRow(skip, now), scan, y, changed);
        executions := executions[scan := y];
        hit := if changed then hit + {scan} else hit;
        todo := todo - {scan};
      }
    }

    /** The fifth statement: the host slots. */
    method SweepSlots(now: int)
      modifies `slots
      ensures slots == L.SweptSlots(old(slots), now)
    {
      var todo := slots.Keys;
      while todo != {}
        invariant todo <= slots.Keys == old(slots).Keys
        invariant forall k :: k in slots ==> slots[k] == if k in todo then old(slots)[k] else L.SweptSlot(old(slots)[k], now)
        decreases |todo|
      {
        var k :| k in todo;
        if slots[k].lease.Some? && slots[k].lease.value.expiresAt <= now {
          slots := slots[k := slots[k].(lease := None)];
        }
        todo := todo - {k};
      }
    }

    /** The last statement: what is drained ends. */
    method EndDrained() returns (hit: set<Id>)
      modifies `executions
      ensures Through(old(executions), executions, hit, {}, EndRow())
    {
      hide Through;
      var todo := executions.Keys;
      hit := {};
      Untouched(executions, EndRow());
      while todo != {}
        invariant Through(old(executions), executions, hit, todo, EndRow())
        decreases |todo|
      {
        var scan :| scan in todo;
        StillToCome(old(executions), executions, hit, todo, EndRow(), scan);
        var y := executions[scan];
        var changed := (y.status == Queued || y.status == Running || y.status == CancelRequested || y.status == Indexing)
                       && y.counts.queued == 0 && y.counts.leased == 0 && y.counts.persisting == 0
                       && y.counts.published == y.counts.expected;
        if changed {
          y := y.(status := FinalStatus(y), progressVersion := y.progressVersion + 1);
        }
        ThroughOne(old(executions), executions, hit, todo, EndRow(), scan, y, changed);
        executions := executions[scan := y];
        hit := if changed then hit + {scan} else hit;
        todo := todo - {scan};
      }
    }

    /** A progress event for every execution that a statement has changed. */
    method PublishAffected(affected: set<Id>, now: int)
      requires affected <= executions.Keys
      modifies `executions
      ensures executions.Keys == old(executions).Keys
      ensures forall scan :: scan in executions ==>
        executions[scan] == if scan in affected then PublishProgress(old(executions)[scan], now) else old(executions)[scan]
    {
      hide PublishProgress;
      var todo := affected;
      while todo != {}
        invariant todo <= affected <= executions.Keys == old(executions).Keys
        invariant forall scan :: scan in executions ==>
          executions[scan] == if scan in affected && scan !in todo then PublishProgress(old(executions)[scan], now) else old(executions)[scan]
        decreases |todo|
      {
        var scan :| scan in todo;
        executions := executions[scan := PublishProgress(executions[scan], now)];
        todo := todo - {scan};
      }
    }

    /** Progress never goes back, so the versions tell whether any of the statements has changed a row. */
    lemma ProgressRises(x: Execution, now: int)
      ensures ReclaimDeliveries(x, now).progressVersion == x.progressVersion
      ensures ReclaimLeases(x, now).progressVersion >= x.progressVersion
      ensures ReclaimDeadline(x, now).progressVersion >= x.progressVersion
      ensures Terminalize(x).progressVersion >= x.progressVersion
    {}

    /** The statements, and then the events, make of an execution what a reclamation makes of it. */
    lemma StatementsReclaim(x: Execution, skipLeases: bool, skipDeadline: bool, now: int)
      ensures var a := ReclaimDeliveries(x, now);
        var b := if skipLeases then a else ReclaimLeases(a, now);
        var c := if skipDeadline then b else ReclaimDeadline(b, now);
        var d := Terminalize(c);
        var affected := b.progressVersion != a.progressVersion || c.progressVersion != b.progressVersion || d.progressVersion != c.progressVersion;
        Reclaim(x, skipLeases, skipDeadline, now) == if affected then PublishProgress(d, now) else d
    {
      hide ReclaimDeliveries, ReclaimLeases, ReclaimDeadline, Terminalize, PublishProgress;
      var a := ReclaimDeliveries(x, now);
      var b := if skipLeases then a else ReclaimLeases(a, now);
      var c := if skipDeadline then b else ReclaimDeadline(b, now);
      ProgressRises(x, now);
      ProgressRises(a, now);
      ProgressRises(b, now);
      ProgressRises(c, now);
    }

    /** The statements in their order, and the events of the executions they changed. */
    method RunStatements(skipLeases: set<Id>, skipDeadline: set<Id>, now: int)
      modifies `executions, `slots
      ensures executions == map scan | scan in old(executions) :: Reclaim(old(executions)[scan], scan in skipLeases, scan in skipDeadline, now)
      ensures slots == L.SweptSlots(old(slots), now)
    {
      hide *;
      ghost var x := executions;
      ReturnDeliveries(now);
      ghost var a := executions;
      var leases := ReclaimPageLeases(skipLeases, now);
      ghost var b := executions;
      var overdue := FailOverdue(skipDeadline, now);
      ghost var c := executions;
      SweepSlots(now);
      var ended := EndDrained();
      ghost var d := executions;
      Affected(a, b, c, d, leases, overdue, ended, skipLeases, skipDeadline, now);
      PublishAffected(leases + overdue + ended, now);
      SweptTable(x, a, b, c, d, executions, leases, overdue, ended, skipLeases, skipDeadline, now);
    }

    /**
     * Takes back every lease that has run out, statement by statement; scans
     * locked by others may be passed by. Each execution goes through the whole
     * reclamation of one execution, and each slot is swept on its own.
     */
    method ReclaimExpired(skipLeases: set<Id>, skipDeadline: set<Id>, now: int)
      requires Valid() && now >= clock
      modifies this
      ensures Valid()
      ensures State() == SweepEffect(old(State()), skipLeases, skipDeadline, now)
    {
      hide ClusterOk, Reclaim, L.SweptSlots;
      ghost var s := State();
      Performed(s, Action.Sweep(skipLeases, skipDeadline), now);
      clock := now;
      RunStatements(skipLeases, skipDeadline, now);
      assert executions == SweepEffect(s, skipLeases, skipDeadline, now).executions;
    }

    lemma Affected(a: map<Id, Execution>, b: map<Id, Execution>, c: map<Id, Execution>, d: map<Id, Execution>,
                   leases: set<Id>, overdue: set<Id>, ended: set<Id>, skipLeases: set<Id>, skipDeadline: set<Id>, now: int)
      requires Through(a, b, leases, {}, LeaseRow(skipLeases, now))
      requires Through(b, c, overdue, {}, DeadlineRow(skipDeadline, now)) && Through(c, d, ended, {}, EndRow())
      ensures leases + overdue + ended <= d.Keys
    {
      hide LeaseRow, DeadlineRow, EndRow;
    }

    lemma SweptTable(x: map<Id, Execution>, a: map<Id, Execution>, b: map<Id, Execution>, c: map<Id, Execution>, d: map<Id, Execution>, y: map<Id, Execution>,
                     leases: set<Id>, overdue: set<Id>, ended: set<Id>, skipLeases: set<Id>, skipDeadline: set<Id>, now: int)
      requires Through(x, a, {}, {}, DeliveryRow(now)) && Through(a, b, leases, {}, LeaseRow(skipLeases, now))
      requires Through(b, c, overdue, {}, DeadlineRow(skipDeadline, now)) && Through(c, d, ended, {}, EndRow())
      requires y.Keys == d.Keys
      requires forall scan :: scan in d ==> y[scan] == if scan in leases + overdue + ended then PublishProgress(d[scan], now) else d[scan]
      ensures y == map scan | scan in x :: Reclaim(x[scan], scan in skipLeases, scan in skipDeadline, now)
    {
      hide Through, DeliveryRow, LeaseRow, DeadlineRow, EndRow, Reclaim, PublishProgress;
      forall scan ensures scan in x <==> scan in y {
        Alike(x, a, {}, DeliveryRow(now), scan);
        Alike(a, b, leases, LeaseRow(skipLeases, now), scan);
        Alike(b, c, overdue, DeadlineRow(skipDeadline, now), scan);
        Alike(c, d, ended, EndRow(), scan);
      }
      forall scan | scan in x ensures y[scan] == Reclaim(x[scan], scan in skipLeases, scan in skipDeadline, now) {
        Alike(x, a, {}, DeliveryRow(now), scan);
        Alike(a, b, leases, LeaseRow(skipLeases, now), scan);
        Alike(b, c, overdue, DeadlineRow(skipDeadline, now), scan);
        Alike(c, d, ended, EndRow(), scan);
        RowsAre(scan, x[scan], a[scan], b[scan], c[scan], skipLeases, skipDeadline, now);
        StatementsReclaim(x[scan], scan in skipLeases, scan in skipDeadline, now);
      }
    }

    lemma Alike(before: map<Id, Execution>, after: map<Id, Execution>, hit: set<Id>, f: (Id, Execution) -> Execution, scan: Id)
      requires Through(before, after, hit, {}, f)
      ensures scan in before <==> scan in after
      ensures scan in before ==> after[scan] == f(scan, before[scan])
      ensures scan in hit <==> scan in before && after[scan].progressVersion != before[scan].progressVersion
    {}

    lemma RowsAre(scan: Id, x: Execution, a: Execution, b: Execution, c: Execution, skipLeases: set<Id>, skipDeadline: set<Id>, now: int)
      ensures DeliveryRow(now)(scan, x) == ReclaimDeliveries(x, now)
      ensures LeaseRow(skipLeases, now)(scan, a) == if scan in skipLeases then a else ReclaimLeases(a, now)
      ensures DeadlineRow(skipDeadline, now)(scan, b) == if scan in skipDeadline then b else ReclaimDeadline(b, now)
      ensures EndRow()(scan, c) == Terminalize(c)
    {
      hide ReclaimDeliveries, ReclaimLeases, ReclaimDeadline, Terminalize;
    }
  }
}
