/**
 * One crawl execution: its row, its pages, its analytics batches and its event
 * lane, with every transaction of the store as one transition.
 *
 * Times are milliseconds. A page or batch lease is present exactly when the
 * owner columns are not NULL.
 */
module Frontier {
  import opened Common

  const SECOND := 1000
  const MAX_ATTEMPTS := 3
  const MAX_DELIVERY_ATTEMPTS := 20
  const MAX_PAYLOAD := 4_194_304

  datatype ExecutionStatus =
    Queued | Running | CancelRequested | Indexing | Completed | PartialSuccess | Failed | Cancelled

  datatype PageStatus =
    PageQueued | PageLeased | PagePersisting | PageSucceeded | PageFailed | PageSkipped | PageCancelled

  datatype Link = Link(target: string, isInternal: bool, isFollowable: bool)

  datatype FetchOutcome = FetchSuccess | FetchHttpError | FetchFailed | FetchSkipped

  /** A fetched page; `encoded` is the size of its analytics payload. */
  datatype PageResult = PageResult(outcome: FetchOutcome, errorCode: string, statusCode: int, links: seq<Link>, encoded: nat)

  /** URL handling is not modelled: any normalisation and any scope test will do. */
  datatype UrlRules = UrlRules(normalize: string -> Option<string>, inScope: (string, string) -> bool)

  /** A row of scan_pages. `accepted` records the result that left the LEASED state. */
  datatype Page = Page(
    url: string, host: string, parent: Option<Id>, depth: nat,
    status: PageStatus, pending: Option<PageStatus>, attempts: nat, availableAt: int,
    lease: Option<Lease>, generation: nat, accepted: Option<PageResult>)

  /** A row of analytics_outbox, keyed by its page. */
  datatype Batch = Batch(status: DeliveryStatus, attempts: nat, availableAt: int, lease: Option<Lease>)

  datatype Counts = Counts(
    discovered: int, queued: int, leased: int, persisting: int,
    succeeded: int, failed: int, skipped: int, cancelled: int,
    expected: int, published: int)

  /** The public snapshot carried by a progress event. */
  datatype Payload = Payload(
    status: ExecutionStatus, discovered: int, queued: int, processed: int,
    succeeded: int, failed: int, expected: int, published: int, terminalCode: string)

  /** A row of outbox_events; the rows of one scan are kept in version order. */
  datatype Event = Event(
    version: nat, payload: Payload, createdAt: int,
    status: DeliveryStatus, attempts: nat, availableAt: int, lease: Option<Lease>)

  datatype Execution = Execution(
    host: string, seed: Id, seedUrl: string,
    maxPages: nat, maxDepth: nat, maxConcurrency: nat, deadline: int,
    commandVersion: int, status: ExecutionStatus, counts: Counts,
    progressVersion: nat, terminalCode: string,
    pages: map<Id, Page>, batches: map<Id, Batch>, outbox: seq<Event>)

  predicate Terminal(status: ExecutionStatus) {
    status == Completed || status == PartialSuccess || status == Failed || status == Cancelled
  }

  // --------------------------------------------------------------- discovery

  /** The page a link leads to, when the crawler may follow it. */
  function Target(rules: UrlRules, host: string, link: Link): Option<string> {
    if !link.isInternal || !link.isFollowable then None
    else match rules.normalize(link.target)
      case None => None
      case Some(url) => if rules.inScope(url, host) then Some(url) else None
  }

  ghost predicate LeadsTo(rules: UrlRules, host: string, links: seq<Link>, url: string) {
    exists k :: 0 <= k < |links| && Target(rules, host, links[k]) == Some(url)
  }

  /** The URLs found so far after one more link. */
  function Found(rules: UrlRules, host: string, link: Link, known: set<string>, remaining: nat, before: seq<string>): seq<string> {
    if |before| >= remaining then before
    else match Target(rules, host, link)
      case None => before
      case Some(url) => if url in known || url in before then before else before + [url]
  }

  /** The URLs a result adds to the frontier, in link order, cut at `remaining`. */
  function Discover(rules: UrlRules, host: string, links: seq<Link>, known: set<string>, remaining: nat): (urls: seq<string>)
    ensures |urls| <= |links| && |urls| <= remaining
    ensures Distinct(urls)
    ensures forall u :: u in urls ==> u !in known && LeadsTo(rules, host, links, u)
    ensures |urls| < remaining ==> forall u :: LeadsTo(rules, host, links, u) ==> u in known || u in urls
  {
    if links == [] then []
    else
      var last := |links| - 1;
      var before := Discover(rules, host, links[..last], known, remaining);
      assert forall u :: LeadsTo(rules, host, links[..last], u) ==> LeadsTo(rules, host, links, u) by {
        forall u | LeadsTo(rules, host, links[..last], u) ensures LeadsTo(rules, host, links, u) {
          var k :| 0 <= k < last && Target(rules, host, links[..last][k]) == Some(u);
          assert Target(rules, host, links[k]) == Some(u);
        }
      }
      assert forall u :: LeadsTo(rules, host, links, u) ==>
          LeadsTo(rules, host, links[..last], u) || Target(rules, host, links[last]) == Some(u) by {
        forall u | LeadsTo(rules, host, links, u) && Target(rules, host, links[last]) != Some(u)
          ensures LeadsTo(rules, host, links[..last], u)
        {
          var k :| 0 <= k < |links| && Target(rules, host, links[k]) == Some(u);
          assert Target(rules, host, links[..last][k]) == Some(u);
        }
      }
      Found(rules, host, links[last], known, remaining, before)
  }

  function Urls(pages: map<Id, Page>): set<string> {
    set p | p in pages :: pages[p].url
  }

  function DiscoveredPage(parent: Id, page: Page, url: string, now: int): Page {
    Page(url, page.host, Some(parent), page.depth + 1, PageQueued, None, 0, now, None, 0, None)
  }

  ghost predicate FreshIds(pages: map<Id, Page>, ids: seq<Id>) {
    Distinct(ids) && forall i :: 0 <= i < |ids| ==> ids[i] !in pages
  }

  /** Inserts one queued page per URL under a fresh identifier. */
  function InsertPages(pages: map<Id, Page>, parent: Id, page: Page, urls: seq<string>, ids: seq<Id>, now: int): (r: map<Id, Page>)
    requires |urls| <= |ids|
    ensures forall p :: p in r <==> p in pages || p in ids[..|urls|]
  {
    if urls == [] then pages
    else
      var last := |urls| - 1;
      assert ids[..|urls|] == ids[..last] + [ids[last]];
      InsertPages(pages, parent, page, urls[..last], ids, now)[ids[last] := DiscoveredPage(parent, page, urls[last], now)]
  }

  // ---------------------------------------------------------- progress events

  function PublicStatus(internal: ExecutionStatus, succeeded: int, failed: int): ExecutionStatus {
    if !Terminal(internal) then internal
    else if internal == Cancelled then Cancelled
    else if succeeded > 0 && failed == 0 then Completed
    else if succeeded > 0 then PartialSuccess
    else Failed
  }

  function Snapshot(x: Execution): Payload {
    var c := x.counts;
    var failed := c.failed + c.skipped + c.cancelled;
    var status := PublicStatus(x.status, c.succeeded, failed);
    Payload(status, c.discovered, c.queued + c.leased + c.persisting, c.succeeded + failed,
            c.succeeded, failed, c.expected, c.published,
            if status == Failed && x.terminalCode == "" then "CRAWL_FAILED" else x.terminalCode)
  }

  /** A snapshot is held back while the latest one is under a second old and says the same status. */
  predicate Throttled(x: Execution, now: int) {
    && !Terminal(x.status)
    && x.outbox != []
    && var latest := x.outbox[|x.outbox| - 1];
       latest.createdAt > now - SECOND && latest.payload.status == Snapshot(x).status
  }

  function PublishProgress(x: Execution, now: int): Execution {
    if Throttled(x, now) || exists i :: 0 <= i < |x.outbox| && x.outbox[i].version == x.progressVersion then x
    else x.(outbox := x.outbox + [Event(x.progressVersion, Snapshot(x), now, Pending, 0, now, None)])
  }

  // ------------------------------------------------------------ transactions

  predicate HoldsLease(x: Execution, p: Id, owner: Id, generation: nat) {
    && p in x.pages
    && x.pages[p].status == PageLeased
    && x.pages[p].lease.Some?
    && x.pages[p].lease.value.owner == owner
    && x.pages[p].generation == generation
  }

  predicate Claimable(x: Execution, p: Id, now: int) {
    && (x.status == Queued || x.status == Running)
    && x.counts.leased < x.maxConcurrency
    && x.deadline > now
    && p in x.pages
    && x.pages[p].status == PageQueued
    && x.pages[p].availableAt <= now
  }

  function ClaimRow(x: Execution, p: Id, owner: Id, until: int): Execution
    requires p in x.pages
  {
    var page := x.pages[p];
    var claimed := page.(status := PageLeased, lease := Some(Lease(owner, until)),
                         generation := page.generation + 1, attempts := page.attempts + 1);
    x.(pages := x.pages[p := claimed],
       status := Running,
       counts := x.counts.(queued := x.counts.queued - 1, leased := x.counts.leased + 1),
       progressVersion := x.progressVersion + 1)
  }

  function ClaimPage(x: Execution, p: Id, owner: Id, until: int, now: int): Execution
    requires p in x.pages
  {
    PublishProgress(ClaimRow(x, p, owner, until), now)
  }

  function ExtendLease(x: Execution, p: Id, until: int): Execution
    requires p in x.pages && x.pages[p].lease.Some?
  {
    var page := x.pages[p];
    x.(pages := x.pages[p := page.(lease := Some(page.lease.value.(expiresAt := until)))])
  }

  predicate ShouldRetryPage(result: PageResult, attempt: nat) {
    && attempt < MAX_ATTEMPTS
    && (Lower(result.errorCode) in {"timeout", "dns_failed", "network_failed", "body_read_failed"}
        || result.statusCode in {429, 500, 502, 503, 504})
  }

  /** A result that is not retried is rolled back when its analytics payload is too large. */
  predicate Storable(x: Execution, p: Id, result: PageResult)
    requires p in x.pages
  {
    ShouldRetryPage(result, x.pages[p].attempts) || result.encoded <= MAX_PAYLOAD
  }

  function TerminalOutcome(result: PageResult): PageStatus {
    if result.outcome == FetchSkipped then PageSkipped
    else if result.errorCode != "" || result.statusCode >= 400 then PageFailed
    else PageSucceeded
  }

  /** CommitPageResult, transient failure: the page goes back to the queue. */
  function RequeueRow(x: Execution, p: Id, retryAt: int): Execution
    requires p in x.pages
  {
    x.(pages := x.pages[p := x.pages[p].(status := PageQueued, lease := None, availableAt := retryAt)],
       counts := x.counts.(queued := x.counts.queued + 1, leased := x.counts.leased - 1),
       progressVersion := x.progressVersion + 1)
  }

  /** The URLs CommitPageResult inserts for a page. */
  function NewUrls(rules: UrlRules, x: Execution, p: Id, links: seq<Link>): (urls: seq<string>)
    requires p in x.pages
    ensures |urls| <= |links|
    ensures urls == [] || x.counts.discovered + |urls| <= x.maxPages
  {
    if x.pages[p].depth >= x.maxDepth || x.maxPages <= x.counts.discovered then []
    else Discover(rules, x.host, links, Urls(x.pages), x.maxPages - x.counts.discovered)
  }

  /** CommitPageResult, accepted result: the page is staged and its links join the queue. */
  function StagedPage(page: Page, result: PageResult): Page {
    page.(status := PagePersisting, pending := Some(TerminalOutcome(result)), lease := None, accepted := Some(result))
  }

  function StageRow(rules: UrlRules, x: Execution, p: Id, result: PageResult, ids: seq<Id>, now: int): Execution
    requires p in x.pages && |result.links| <= |ids|
  {
    var urls := NewUrls(rules, x, p, result.links);
    x.(pages := InsertPages(x.pages[p := StagedPage(x.pages[p], result)], p, x.pages[p], urls, ids, now),
       batches := x.batches[p := Batch(Pending, 0, now, None)],
       counts := x.counts.(
         discovered := x.counts.discovered + |urls|, queued := x.counts.queued + |urls|,
         leased := x.counts.leased - 1, persisting := x.counts.persisting + 1,
         expected := x.counts.expected + 1),
       progressVersion := x.progressVersion + 1)
  }

  function CommitResult(rules: UrlRules, x: Execution, p: Id, result: PageResult, ids: seq<Id>, retryAt: int, now: int): Execution
    requires p in x.pages && |result.links| <= |ids|
  {
    PublishProgress(
      if ShouldRetryPage(result, x.pages[p].attempts) then RequeueRow(x, p, retryAt)
      else StageRow(rules, x, p, result, ids, now), now)
  }

  predicate BatchClaimable(x: Execution, p: Id, now: int) {
    && p in x.batches
    && (x.batches[p].status == Pending || x.batches[p].status == Dead)
    && x.batches[p].availableAt <= now
  }

  function ClaimBatch(x: Execution, p: Id, owner: Id, until: int): Execution
    requires p in x.batches
  {
    var batch := x.batches[p];
    x.(batches := x.batches[p := Batch(Claimed, batch.attempts + 1, batch.availableAt, Some(Lease(owner, until)))])
  }

  predicate HoldsBatch(x: Execution, p: Id, owner: Id) {
    && p in x.batches
    && x.batches[p].status == Claimed
    && x.batches[p].lease.Some?
    && x.batches[p].lease.value.owner == owner
  }

  function RetryBatch(x: Execution, p: Id, retryAt: int): Execution
    requires p in x.batches
  {
    var batch := x.batches[p];
    var status := if batch.attempts >= MAX_DELIVERY_ATTEMPTS then Dead else Pending;
    x.(batches := x.batches[p := Batch(status, batch.attempts, retryAt, None)])
  }

  predicate Quiescent(x: Execution) {
    x.counts.queued == 0 && x.counts.leased == 0 && x.counts.persisting == 0
  }

  function FinalStatus(x: Execution): ExecutionStatus {
    if x.status == CancelRequested then Cancelled
    else if x.counts.succeeded > 0 && x.counts.failed + x.counts.skipped + x.counts.cancelled == 0 then Completed
    else if x.counts.succeeded > 0 then PartialSuccess
    else Failed
  }

  const USER_CANCELLED := "USER_CANCELLED"
  const DEADLINE_EXCEEDED := "SCAN_DEADLINE_EXCEEDED"

  /** CompleteAnalytics up to the terminal test: the page takes its pending status. */
  function FinalizePage(x: Execution, p: Id): Execution
    requires p in x.batches && p in x.pages && x.pages[p].pending.Some?
  {
    var status := x.pages[p].pending.value;
    x.(
      batches := x.batches[p := x.batches[p].(status := Delivered, lease := None)],
      pages := x.pages[p := x.pages[p].(status := status, pending := None)],
      counts := x.counts.(
        persisting := x.counts.persisting - 1,
        succeeded := x.counts.succeeded + (if status == PageSucceeded then 1 else 0),
        skipped := x.counts.skipped + (if status == PageSkipped then 1 else 0),
        failed := x.counts.failed + (if status != PageSucceeded && status != PageSkipped then 1 else 0),
        published := x.counts.published + 1),
      progressVersion := x.progressVersion + 1)
  }

  function AnalyticsRow(x: Execution, p: Id): Execution
    requires p in x.batches && p in x.pages && x.pages[p].pending.Some?
  {
    var y := FinalizePage(x, p);
    if Quiescent(y) && y.counts.published == y.counts.expected then
      y.(status := FinalStatus(y),
         terminalCode := if y.status == CancelRequested then USER_CANCELLED else y.terminalCode,
         progressVersion := y.progressVersion + 1)
    else y
  }

  function CompleteAnalytics(x: Execution, p: Id, now: int): Execution
    requires p in x.batches && p in x.pages && x.pages[p].pending.Some?
  {
    PublishProgress(AnalyticsRow(x, p), now)
  }

  function CancelledPage(page: Page): Page {
    if page.status == PageQueued || page.status == PageLeased
    then page.(status := PageCancelled, pending := None, lease := None)
    else page
  }

  /** AcceptCancellation when the command applies. */
  function CancelRow(x: Execution, version: int): Execution {
    var done := x.counts.persisting == 0 && x.counts.published == x.counts.expected;
    var queued := |WithStatus(x.pages, PageQueued)|;
    var leased := |WithStatus(x.pages, PageLeased)|;
    x.(pages := map p | p in x.pages :: CancelledPage(x.pages[p]),
       status := if done then Cancelled else CancelRequested,
       commandVersion := version,
       counts := x.counts.(
         queued := x.counts.queued - queued, leased := x.counts.leased - leased,
         cancelled := x.counts.cancelled + queued + leased),
       terminalCode := USER_CANCELLED,
       progressVersion := x.progressVersion + 1)
  }

  function Cancel(x: Execution, version: int, now: int): Execution {
    PublishProgress(CancelRow(x, version), now)
  }

  function WithStatus(pages: map<Id, Page>, status: PageStatus): set<Id> {
    set p | p in pages && pages[p].status == status
  }

  predicate LeaseExpired(lease: Option<Lease>, now: int) {
    lease.Some? && lease.value.expiresAt <= now
  }

  predicate PageExpired(page: Page, now: int) {
    page.status == PageLeased && LeaseExpired(page.lease, now)
  }

  function ExpiredPage(page: Page, now: int): Page {
    if !PageExpired(page, now) then page
    else page.(status := if page.attempts >= MAX_ATTEMPTS then PageFailed else PageQueued,
               lease := None, availableAt := now)
  }

  function ExpiredSet(x: Execution, now: int): set<Id> {
    set p | p in x.pages && PageExpired(x.pages[p], now)
  }

  /** The expired pages that have used up their attempts. */
  function SpentSet(x: Execution, now: int): set<Id> {
    set p | p in x.pages && PageExpired(x.pages[p], now) && x.pages[p].attempts >= MAX_ATTEMPTS
  }

  /** ReclaimExpired, page leases: an expired page is requeued or, after three attempts, failed. */
  function ReclaimLeases(x: Execution, now: int): Execution {
    var expired, spent := ExpiredSet(x, now), SpentSet(x, now);
    if expired == {} then x
    else x.(
      pages := map p | p in x.pages :: ExpiredPage(x.pages[p], now),
      counts := x.counts.(
        leased := x.counts.leased - |expired|,
        queued := x.counts.queued + |expired - spent|,
        failed := x.counts.failed + |spent|),
      progressVersion := x.progressVersion + 1)
  }

  function OverduePage(page: Page): Page {
    if page.status == PageQueued then page.(status := PageFailed) else page
  }

  /** ReclaimExpired, scan deadline: what is still queued fails. */
  function ReclaimDeadline(x: Execution, now: int): Execution {
    var overdue := WithStatus(x.pages, PageQueued);
    if (x.status != Queued && x.status != Running) || x.deadline > now || overdue == {} then x
    else x.(
      pages := map p | p in x.pages :: OverduePage(x.pages[p]),
      counts := x.counts.(queued := x.counts.queued - |overdue|, failed := x.counts.failed + |overdue|),
      terminalCode := DEADLINE_EXCEEDED,
      progressVersion := x.progressVersion + 1)
  }

  /** ReclaimExpired, last statement: a drained execution becomes terminal. */
  function Terminalize(x: Execution): Execution {
    if Terminal(x.status) || !Quiescent(x) || x.counts.published != x.counts.expected then x
    else x.(status := FinalStatus(x), progressVersion := x.progressVersion + 1)
  }

  function ReclaimedBatch(batch: Batch, now: int): Batch {
    if batch.status == Claimed && LeaseExpired(batch.lease, now)
    then batch.(status := Pending, lease := None, availableAt := now) else batch
  }

  function ReclaimedEvent(event: Event, now: int): Event {
    if event.status == Claimed && LeaseExpired(event.lease, now)
    then event.(status := Pending, lease := None, availableAt := now) else event
  }

  /** ReclaimExpired, outbox leases. */
  function ReclaimDeliveries(x: Execution, now: int): Execution {
    x.(batches := map p | p in x.batches :: ReclaimedBatch(x.batches[p], now),
       outbox := seq(|x.outbox|, i requires 0 <= i < |x.outbox| => ReclaimedEvent(x.outbox[i], now)))
  }

  /**
   * ReclaimExpired seen from one execution. The two page statements skip rows
   * that another transaction has locked, so either may pass this one by.
   */
  function ReclaimRow(x: Execution, skipLeases: bool, skipDeadline: bool, now: int): Execution {
    var a := ReclaimDeliveries(x, now);
    var b := if skipLeases then a else ReclaimLeases(a, now);
    var c := if skipDeadline then b else ReclaimDeadline(b, now);
    Terminalize(c)
  }

  function Reclaim(x: Execution, skipLeases: bool, skipDeadline: bool, now: int): Execution {
    var y := ReclaimRow(x, skipLeases, skipDeadline, now);
    if y.progressVersion != x.progressVersion then PublishProgress(y, now) else y
  }

  // --------------------------------------------------------------- acceptance

  const MAX_SCAN_PAGES := 1_000_000
  const MAX_SCAN_SECONDS := 604_800
  const MAX_SCAN_CONCURRENCY := 10_000

  /** The limits a scan command carries, as far as its Validate method bounds them. */
  datatype ScanCommand = ScanCommand(
    targetUrl: string, host: string, maxPages: nat, maxDepth: nat, maxConcurrency: nat, maxSeconds: nat, version: int)

  predicate ValidCommand(command: ScanCommand) {
    && 1 <= command.maxPages <= MAX_SCAN_PAGES && command.maxDepth <= 10
    && 1 <= command.maxSeconds <= MAX_SCAN_SECONDS && 1 <= command.maxConcurrency <= MAX_SCAN_CONCURRENCY
    && 0 <= command.version
  }

  /** The execution AcceptCommand inserts together with its seed page. */
  function NewExecution(command: ScanCommand, url: string, seed: Id, now: int): Execution {
    Execution(command.host, seed, url, command.maxPages, command.maxDepth, command.maxConcurrency,
              now + command.maxSeconds * SECOND, command.version, Queued,
              Counts(1, 1, 0, 0, 0, 0, 0, 0, 0, 0), 0, "",
              map[seed := Page(url, command.host, None, 0, PageQueued, None, 0, now, None, 0, None)],
              map[], [])
  }

  // --------------------------------------------------------------- event lane

  /** The candidate test of ClaimEvents inside one lane. */
  predicate EventClaimable(outbox: seq<Event>, i: nat, now: int) {
    && i < |outbox|
    && (outbox[i].status == Pending || outbox[i].status == Dead)
    && outbox[i].availableAt <= now
    && forall j :: 0 <= j < |outbox| ==>
         outbox[j].status != Claimed
         && !((outbox[j].status == Pending || outbox[j].status == Dead) && outbox[j].version < outbox[i].version)
  }

  function ClaimEvent(x: Execution, i: nat, owner: Id, until: int): Execution
    requires i < |x.outbox|
  {
    x.(outbox := x.outbox[i := x.outbox[i].(
      status := Claimed, lease := Some(Lease(owner, until)), attempts := x.outbox[i].attempts + 1)])
  }

  predicate HoldsEvent(outbox: seq<Event>, i: nat, owner: Id) {
    && i < |outbox|
    && outbox[i].status == Claimed
    && outbox[i].lease.Some?
    && outbox[i].lease.value.owner == owner
  }

  function CompleteEvent(x: Execution, i: nat): Execution
    requires i < |x.outbox|
  {
    x.(outbox := x.outbox[i := x.outbox[i].(status := Delivered, lease := None)])
  }

  function RetryEvent(x: Execution, i: nat, retryAt: int): Execution
    requires i < |x.outbox|
  {
    var status := if x.outbox[i].attempts >= MAX_DELIVERY_ATTEMPTS then Dead else Pending;
    x.(outbox := x.outbox[i := x.outbox[i].(status := status, lease := None, availableAt := retryAt)])
  }

  // -------------------------------------------------------------------- steps

  /** A transaction on one execution with the values it draws from outside. */
  datatype Step =
    | ClaimStep(page: Id, owner: Id, until: int)
    | ExtendStep(page: Id, owner: Id, generation: nat, until: int)
    | CommitStep(page: Id, owner: Id, generation: nat, result: PageResult, ids: seq<Id>, retryAt: int)
    | ClaimBatchStep(page: Id, owner: Id, until: int)
    | RetryBatchStep(page: Id, owner: Id, retryAt: int)
    | AnalyticsStep(page: Id, owner: Id)
    | CancelStep(version: int)
    | ReclaimStep(skipLeases: bool, skipDeadline: bool)
    | ClaimEventStep(index: nat, owner: Id, until: int)
    | CompleteEventStep(index: nat, owner: Id)
    | RetryEventStep(index: nat, owner: Id, retryAt: int)

  /** The guard of each transaction. A transaction whose guard fails changes nothing. */
  ghost predicate Enabled(x: Execution, step: Step, now: int) {
    match step
    case ClaimStep(p, _, _) => Claimable(x, p, now)
    case ExtendStep(p, owner, generation, _) => HoldsLease(x, p, owner, generation)
    case CommitStep(p, owner, generation, result, ids, _) =>
      HoldsLease(x, p, owner, generation) && Storable(x, p, result) && FreshIds(x.pages, ids) && |result.links| <= |ids|
    case ClaimBatchStep(p, _, _) => BatchClaimable(x, p, now)
    case RetryBatchStep(p, owner, _) => HoldsBatch(x, p, owner)
    case AnalyticsStep(p, owner) =>
      HoldsBatch(x, p, owner) && p in x.pages && x.pages[p].status == PagePersisting && x.pages[p].pending.Some?
    case CancelStep(version) => version > x.commandVersion && !Terminal(x.status)
    case ReclaimStep(_, _) => true
    case ClaimEventStep(i, _, _) => EventClaimable(x.outbox, i, now)
    case CompleteEventStep(i, owner) => HoldsEvent(x.outbox, i, owner) && x.outbox[i].lease.value.expiresAt > now
    case RetryEventStep(i, owner, _) => HoldsEvent(x.outbox, i, owner)
  }

  ghost function Apply(rules: UrlRules, x: Execution, step: Step, now: int): Execution {
    if !Enabled(x, step, now) then x
    else match step
      case ClaimStep(p, owner, until) => ClaimPage(x, p, owner, until, now)
      case ExtendStep(p, _, _, until) => ExtendLease(x, p, until)
      case CommitStep(p, _, _, result, ids, retryAt) => CommitResult(rules, x, p, result, ids, retryAt, now)
      case ClaimBatchStep(p, owner, until) => ClaimBatch(x, p, owner, until)
      case RetryBatchStep(p, _, retryAt) => RetryBatch(x, p, retryAt)
      case AnalyticsStep(p, _) => CompleteAnalytics(x, p, now)
      case CancelStep(version) => Cancel(x, version, now)
      case ReclaimStep(skipLeases, skipDeadline) => Reclaim(x, skipLeases, skipDeadline, now)
      case ClaimEventStep(i, owner, until) => ClaimEvent(x, i, owner, until)
      case CompleteEventStep(i, _) => CompleteEvent(x, i)
      case RetryEventStep(i, _, retryAt) => RetryEvent(x, i, retryAt)
  }

  ghost predicate Next(rules: UrlRules, x: Execution, y: Execution) {
    exists step, now :: y == Apply(rules, x, step, now)
  }

  ghost predicate StepAt(rules: UrlRules, run: seq<Execution>, i: nat)
    requires 0 < i < |run|
  {
    Next(rules, run[i - 1], run[i])
  }

  /** Successive states of one execution: any transactions, in any order, at any times. */
  ghost predicate IsRun(rules: UrlRules, run: seq<Execution>) {
    |run| > 0 && forall i {:trigger StepAt(rules, run, i)} :: 0 < i < |run| ==> StepAt(rules, run, i)
  }

  /** A run of an accepted scan command from its first state. */
  ghost predicate IsScanRun(rules: UrlRules, command: ScanCommand, run: seq<Execution>) {
    && ValidCommand(command)
    && IsRun(rules, run)
    && exists url, seed, start :: run[0] == NewExecution(command, url, seed, start)
  }

  ghost function Last(run: seq<Execution>): Execution
    requires |run| > 0
  {
    run[|run| - 1]
  }

  lemma RunPrefix(rules: UrlRules, run: seq<Execution>, n: nat)
    requires IsRun(rules, run) && 0 < n <= |run|
    ensures IsRun(rules, run[..n])
  {
    forall i | 0 < i < n ensures StepAt(rules, run[..n], i) {
      assert StepAt(rules, run, i);
    }
  }

  /** The last step of a run that has one. */
  lemma RunStep(rules: UrlRules, run: seq<Execution>)
    requires IsRun(rules, run) && |run| > 1
    ensures IsRun(rules, run[..|run| - 1])
    ensures run[..|run| - 1][0] == run[0]
    ensures Next(rules, Last(run[..|run| - 1]), Last(run))
  {
    RunPrefix(rules, run, |run| - 1);
    assert StepAt(rules, run, |run| - 1);
  }
}
