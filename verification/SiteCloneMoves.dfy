/** What a transaction of a site-clone job may do to a page, and when the job itself moves on. */
module SiteCloneMoves {
  import opened Common
  import opened SiteClone
  import opened SiteCloneInvariant
  import opened SiteCloneSafety

  // ------------------------------------------------------------------- pages

  /** In every reachable state a page that failed has used up its retries, unless its bundle did not fit the budget. */
  lemma FailedIsSpent(run: seq<Job>, p: Id)
    requires IsCloneRun(run) && p in Latest(run).pages && Latest(run).pages[p].status == PageFailed
    requires Latest(run).pages[p].code != "SITE_INPUT_BUDGET_EXCEEDED"
    ensures Latest(run).pages[p].attempts == Latest(run).limits.maxRetries
  {
    var x := Latest(run);
    CloneRunOk(run);
    hide IsCloneRun, CountersOk, StatusOk, ArtifactsOk;
    assert PageOk(x.pages[p], x.limits, x.status, x.ingested);
  }

  /** The worker has this page. */
  ghost predicate Has(x: Job, p: Id, owner: Id, generation: nat) {
    p in x.pages && x.pages[p].status == Rendering && x.pages[p].generation == generation
    && exists expiresAt :: x.pages[p].lease == Some(Lease(owner, expiresAt))
  }

  lemma HasHolds(x: Job, p: Id, owner: Id, generation: nat)
    ensures Has(x, p, owner, generation) <==> HoldsPage(x, p, owner, generation)
  {
    if HoldsPage(x, p, owner, generation) {
      assert x.pages[p].lease == Some(Lease(owner, x.pages[p].lease.value.expiresAt));
    }
  }

  /**
   * A page that fails goes back to the queue, and nothing is counted, while it
   * has attempts left; after the last it has failed, and is counted once.
   */
  lemma PageFails(x: Job, p: Id, owner: Id, generation: nat, code: string, retryAt: int, now: int)
    ensures var y := Apply(x, FailPageStep(p, owner, generation, code, retryAt), now);
      if !Has(x, p, owner, generation) then y == x
      else
        && p in y.pages && y.pages[p].lease == None && y.pages[p].code == code && y.pages[p].attempts == x.pages[p].attempts
        && (forall q :: q != p && q in x.pages ==> q in y.pages && y.pages[q] == x.pages[q])
        && if x.pages[p].attempts < x.limits.maxRetries
           then y.pages[p].status == Queued && y.pages[p].availableAt == retryAt && y == x.(pages := y.pages)
           else y.pages[p].status == PageFailed
                && y == x.(pages := y.pages, processed := x.processed + 1, failed := x.failed + 1)
  {
    HasHolds(x, p, owner, generation);
    hide Has;
  }

  /** A bundle is refused by a cancelling job and by a spent budget; else the page has succeeded with its bytes. */
  lemma PageCompletes(x: Job, p: Id, owner: Id, generation: nat, bytes: nat, now: int)
    ensures var y := Apply(x, CompletePageStep(p, owner, generation, bytes), now);
      if !Has(x, p, owner, generation) || (bytes == 0 && x.status != CancelRequested && x.inputBytes <= x.limits.maxInputBytes) then y == x
      else
        && p in y.pages && y.pages[p].lease == None
        && (forall q :: q != p && q in x.pages ==> q in y.pages && y.pages[q] == x.pages[q])
        && if x.status == CancelRequested
           then y.pages[p].status == PageCancelled && y.pages[p].code == "CANCELLED" && y == x.(pages := y.pages)
           else if x.inputBytes + bytes > x.limits.maxInputBytes
           then y.pages[p].status == PageFailed && y.pages[p].code == "SITE_INPUT_BUDGET_EXCEEDED"
                && y == x.(pages := y.pages, processed := x.processed + 1, failed := x.failed + 1)
           else y.pages[p].status == Succeeded && y.pages[p].inputBytes == bytes && y.pages[p].bundle == Available
                && y == x.(pages := y.pages, processed := x.processed + 1, succeeded := x.succeeded + 1, inputBytes := x.inputBytes + bytes)
  {
    HasHolds(x, p, owner, generation);
    hide Has;
  }

  /** A bundle is claimed for half a minute when it is due; a claimed one goes, or waits another minute. */
  predicate BundleMoves(a: Page, b: Page, now: int) {
    || ((a.bundle == Available || a.bundle == BundlePending) && a.bundleDeleteAfter <= now
        && b == a.(bundle := BundlePending, bundleDeleteAfter := now + 30_000))
    || (a.bundle == BundlePending && (b == a.(bundle := BundleDeleted, bundleDeleteAfter := now) || b == a.(bundleDeleteAfter := now + 60_000)))
  }

  /** What one transaction may do to one page. */
  ghost predicate PageMoves(x: Job, a: Page, b: Page, now: int) {
    && b.ordinal == a.ordinal && b.urlHash == a.urlHash && b.path == a.path && b.rejected == a.rejected
    && Turns(x, a, b, now)
  }

  /** The columns that change. */
  ghost predicate Turns(x: Job, a: Page, b: Page, now: int) {
    || b == a
    || (a.status == Queued && b.status == Rendering && x.status == Running && a.availableAt <= now
        && b.attempts == a.attempts + 1 && b.generation == a.generation + 1
        && b.lease.Some? && b.lease.value.expiresAt == now + 60_000)
    || (a.status == Rendering && b.status == Rendering && b.attempts == a.attempts && b.generation == a.generation
        && b.lease.Some? && b.lease.value.expiresAt == now + 60_000)
    || (a.status == Rendering && b.lease == None && b.attempts == a.attempts
        && ((b.status == Queued && a.attempts < x.limits.maxRetries) || b.status == PageFailed || b.status == PageCancelled || b.status == Succeeded))
    || (a.status == Rendering && b.status == Rendering && PageExpired(a, now) && a.attempts < x.limits.maxRetries
        && x.status == Running && b.attempts == a.attempts + 1 && b.generation == a.generation + 1
        && b.lease.Some? && b.lease.value.expiresAt == now + 60_000)
    || (a.status == Queued && b == a.(status := PageCancelled, code := "CANCELLED"))
    || (a.status == Succeeded && Terminal(x.status) && BundleMoves(a, b, now))
  }

  lemma ClaimPageMoves(x: Job, some: set<Id>, q: Id, owner: Id, now: int, p: Id)
    requires p in x.pages
    ensures var y := Apply(x, ClaimPageStep(some, q, owner), now);
      p in y.pages && PageMoves(x, x.pages[p], y.pages[p], now)
  {
    var r := ReclaimPages(x, some, now);
    assert p in r.pages && r.status == x.status && (r.pages[p] == x.pages[p]
      || (PageExpired(x.pages[p], now) && r.pages[p] == ReclaimedPage(x.pages[p], x.limits.maxRetries, now))) by { hide Total; }
    hide ReclaimPages, Total;
  }

  lemma ReconcilePageMoves(x: Job, skipped: bool, now: int, p: Id)
    requires p in x.pages
    ensures var y := Apply(x, ReconcileStep(skipped), now);
      p in y.pages && PageMoves(x, x.pages[p], y.pages[p], now)
  {
    var a := PastDeadline(x, now);
    var b := CancelQueued(a);
    assert p in b.pages && PageMoves(x, x.pages[p], b.pages[p], now);
    assert SettleCancel(b, skipped, now).pages == b.pages;
    hide PastDeadline, CancelQueued, SettleCancel, PageMoves;
  }

  /** Only the page that a step names can move. */
  lemma OthersStay(x: Job, step: Step, now: int, p: Id)
    requires p in x.pages && (step.ExtendPageStep? || step.FailPageStep? || step.CompletePageStep?) && step.page != p
    ensures var y := Apply(x, step, now); p in y.pages && y.pages[p] == x.pages[p]
  {}

  lemma ExtendedTurn(x: Job, p: Id, owner: Id, generation: nat, now: int)
    requires p in x.pages
    ensures var y := ExtendPage(x, p, owner, generation, now); p in y.pages && PageMoves(x, x.pages[p], y.pages[p], now)
  {}

  lemma FailedTurn(x: Job, p: Id, owner: Id, generation: nat, code: string, retryAt: int, now: int)
    requires p in x.pages
    ensures var y := FailPage(x, p, owner, generation, code, retryAt); p in y.pages && PageMoves(x, x.pages[p], y.pages[p], now)
  {}

  lemma CompletedTurn(x: Job, p: Id, owner: Id, generation: nat, bytes: nat, now: int)
    requires p in x.pages
    ensures var y := CompletePage(x, p, owner, generation, bytes, now); p in y.pages && PageMoves(x, x.pages[p], y.pages[p], now)
  {}

  lemma HeldPageMoves(x: Job, step: Step, now: int, p: Id)
    requires p in x.pages && (step.ExtendPageStep? || step.FailPageStep? || step.CompletePageStep?)
    ensures var y := Apply(x, step, now);
      p in y.pages && PageMoves(x, x.pages[p], y.pages[p], now)
  {
    SamePage(x, x.pages[p], now);
    hide PageMoves, ExtendPage, FailPage, CompletePage;
    if step.page != p {
      OthersStay(x, step, now, p);
    } else {
      match step
      case ExtendPageStep(_, owner, generation) => ExtendedTurn(x, p, owner, generation, now);
      case FailPageStep(_, owner, generation, code, retryAt) => FailedTurn(x, p, owner, generation, code, retryAt, now);
      case CompletePageStep(_, owner, generation, bytes) => CompletedTurn(x, p, owner, generation, bytes, now);
    }
  }

  lemma BundleTurn(x: Job, step: Step, now: int, p: Id)
    requires p in x.pages && (step.ClaimBundleStep? || step.CompleteBundleStep? || step.RetryBundleStep?) && step.page == p
    requires x.pages[p].bundle == BundlePending ==> x.pages[p].status == Succeeded && Terminal(x.status)
    ensures var y := Apply(x, step, now); p in y.pages && PageMoves(x, x.pages[p], y.pages[p], now)
  {}

  lemma BundlePageMoves(x: Job, step: Step, now: int, p: Id)
    requires p in x.pages && (step.ClaimBundleStep? || step.CompleteBundleStep? || step.RetryBundleStep?)
    requires x.pages[p].bundle == BundlePending ==> x.pages[p].status == Succeeded && Terminal(x.status)
    ensures var y := Apply(x, step, now);
      p in y.pages && PageMoves(x, x.pages[p], y.pages[p], now)
  {
    SamePage(x, x.pages[p], now);
    hide PageMoves;
    if step.page == p {
      BundleTurn(x, step, now, p);
    }
  }

  lemma {:induction false} TargetsStay(pages: map<Id, Page>, targets: seq<Target>, now: int, p: Id)
    requires p in pages
    ensures p in InsertTargets(pages, targets, now) && InsertTargets(pages, targets, now)[p] == pages[p]
    decreases |targets|
  {
    if targets != [] {
      assert p in InsertTarget(pages, targets[0], now) && InsertTarget(pages, targets[0], now)[p] == pages[p];
      hide InsertTarget;
      TargetsStay(InsertTarget(pages, targets[0], now), targets[1..], now, p);
    }
  }

  lemma PendingBundles(x: Job)
    requires CloneOk(x)
    ensures forall q :: q in x.pages ==> (x.pages[q].bundle == BundlePending ==> x.pages[q].status == Succeeded && Terminal(x.status))
  {
    forall q | q in x.pages ensures x.pages[q].bundle == BundlePending ==> x.pages[q].status == Succeeded && Terminal(x.status) {
      assert PageOk(x.pages[q], x.limits, x.status, x.ingested);
    }
  }

  lemma RowsUntouched(x: Job, step: Step, now: int)
    requires !step.ClaimPageStep? && !step.ExtendPageStep? && !step.CompletePageStep? && !step.FailPageStep? && !step.AddTargetsStep?
          && !step.ReconcileStep? && !step.ClaimBundleStep? && !step.CompleteBundleStep? && !step.RetryBundleStep?
    ensures Apply(x, step, now).pages == x.pages
  {
    hide Total, NoOpenPages, StagedRows, StageMatches, AnyCancelled, Remaining;
  }

  /**
   * Over whole runs: pages are leased only when they are due in a running job,
   * for a minute and one more attempt; taken back and put back only with
   * attempts left; cancelled only while they wait or are rendered; and a
   * bundle goes only once its job has ended.
   */
  lemma PagesMove(run: seq<Job>, step: Step, now: int, p: Id)
    requires IsCloneRun(run) && p in Latest(run).pages
    ensures var y := Apply(Latest(run), step, now);
      p in y.pages && PageMoves(Latest(run), Latest(run).pages[p], y.pages[p], now)
  {
    var x := Latest(run);
    CloneRunOk(run);
    PendingBundles(x);
    hide IsCloneRun, CloneOk, Apply, PageMoves;
    SamePage(x, x.pages[p], now);
    match step
    case ClaimPageStep(some, q, owner) => ClaimPageMoves(x, some, q, owner, now, p);
    case AddTargetsStep(owner, generation, targets) => AddedStay(x, owner, generation, targets, now, p);
    case ReconcileStep(skipped) => ReconcilePageMoves(x, skipped, now, p);
    case ExtendPageStep(_, _, _) => HeldPageMoves(x, step, now, p);
    case CompletePageStep(_, _, _, _) => HeldPageMoves(x, step, now, p);
    case FailPageStep(_, _, _, _, _) => HeldPageMoves(x, step, now, p);
    case ClaimBundleStep(_) => BundlePageMoves(x, step, now, p);
    case CompleteBundleStep(_) => BundlePageMoves(x, step, now, p);
    case RetryBundleStep(_) => BundlePageMoves(x, step, now, p);
    case _ => RowsUntouched(x, step, now);
  }

  /** While its lease runs, a page is left to the worker and generation that hold it. */
  lemma HeldPageStays(x: Job, step: Step, now: int, p: Id)
    requires p in x.pages && x.pages[p].status == Rendering && LeaseRuns(x.pages[p].lease, now)
    requires step.ExtendPageStep? || step.CompletePageStep? || step.FailPageStep? ==>
      step.page != p || step.generation != x.pages[p].generation || step.owner != x.pages[p].lease.value.owner
    requires x.pages[p].bundle == NoBundle
    ensures p in Apply(x, step, now).pages && Apply(x, step, now).pages[p] == x.pages[p]
  {
    hide AddTargets, ClaimPage, Reconcile, Total, NoOpenPages, StageMatches, StagedRows, AnyCancelled, Remaining, Refresh;
    match step
    case AddTargetsStep(owner, generation, targets) => AddedStay(x, owner, generation, targets, now, p);
    case ClaimPageStep(some, q, owner) => ClaimLeaves(x, some, q, owner, now, p);
    case ReconcileStep(skipped) => ReconcileLeaves(x, skipped, now, p);
    case ExtendPageStep(_, _, _) =>
    case CompletePageStep(_, _, _, _) =>
    case FailPageStep(_, _, _, _, _) =>
    case ClaimBundleStep(_) =>
    case CompleteBundleStep(_) =>
    case RetryBundleStep(_) =>
    case _ => RowsUntouched(x, step, now);
  }

  lemma ClaimLeaves(x: Job, some: set<Id>, q: Id, owner: Id, now: int, p: Id)
    requires p in x.pages && x.pages[p].status == Rendering && LeaseRuns(x.pages[p].lease, now)
    ensures p in ClaimPage(x, some, q, owner, now).pages && ClaimPage(x, some, q, owner, now).pages[p] == x.pages[p]
  {
    assert p in ReclaimPages(x, some, now).pages && ReclaimPages(x, some, now).pages[p] == x.pages[p] by { hide Total; }
    hide ReclaimPages, Total;
  }

  lemma ReconcileLeaves(x: Job, skipped: bool, now: int, p: Id)
    requires p in x.pages && x.pages[p].status == Rendering
    ensures p in Reconcile(x, skipped, now).pages && Reconcile(x, skipped, now).pages[p] == x.pages[p]
  {
    var b := CancelQueued(PastDeadline(x, now));
    assert p in b.pages && b.pages[p] == x.pages[p];
    hide Total, CancelQueued, PastDeadline;
  }

  lemma SamePage(x: Job, page: Page, now: int)
    ensures PageMoves(x, page, page, now)
  {}

  lemma AddedStay(x: Job, owner: Id, generation: nat, targets: seq<Target>, now: int, p: Id)
    requires p in x.pages
    ensures var y := Apply(x, AddTargetsStep(owner, generation, targets), now); p in y.pages && y.pages[p] == x.pages[p]
  {
    TargetsStay(x.pages, targets, now, p);
    hide InsertTargets;
  }

  // --------------------------------------------------------------------- jobs

  ghost predicate SomeSucceeded(x: Job) {
    exists p :: p in x.pages && x.pages[p].status == Succeeded
  }

  ghost predicate NoneWaits(x: Job) {
    forall p :: p in x.pages ==> x.pages[p].status != Queued && x.pages[p].status != Rendering
  }

  predicate LeaseRuns(lease: Option<Lease>, now: int) {
    lease.Some? && lease.value.expiresAt > now
  }

  /** When a job changes its status; `y` is what it becomes. */
  ghost predicate JobMoves(x: Job, y: Job, now: int) {
    if y.status == x.status then true
    else if y.status == CancelRequested then !Terminal(x.status) && y.phaseLease == None
    else match x.status
      case Ingesting =>
        || (y.status == Running && x.pages != map[] && y.pages == x.pages && y.ingested && y.discovered == |x.pages|)
        || (y.status == Failed && y.phaseLease == None && y.pages == x.pages)
        || (x.limits.deadline <= now && Drained(y))
      case Running =>
        || (y.status == Failed && x.ingested && !SomeSucceeded(x) && NoneWaits(x) && y.terminalCode == "ALL_PAGES_FAILED")
        || (y.status == Assembling && x.ingested && SomeSucceeded(x) && NoneWaits(x) && x.phaseAvailableAt <= now
            && !LeaseRuns(x.phaseLease, now) && y.phaseGeneration == x.phaseGeneration + 1
            && y.phaseLease.Some? && y.phaseLease.value.expiresAt == now + 300_000)
        || (x.limits.deadline <= now && Drained(y))
      case Assembling =>
        || ((y.status == Published || y.status == Partial) && LeaseRuns(x.phaseLease, now) && y.pages == x.pages && y.phaseLease == None)
        || (y.status == Failed && x.phaseLease.Some? && y.phaseLease == None)
        || (x.limits.deadline <= now && Drained(y))
      case CancelRequested => Drained(y)
      case Published => y.status == Expired && !Remaining(y.artifacts)
      case Partial => y.status == Expired && !Remaining(y.artifacts)
      case _ => false
  }

  /** A cancelling job that has settled: it goes on with what it has, and ends if it has nothing. */
  ghost predicate Drained(y: Job) {
    && NoneWaits(y) && y.phaseLease == None
    && (y.status == Running <==> SomeSucceeded(y))
    && (y.status == Running || y.status == Failed || y.status == Cancelled)
    && (y.status == Failed <==> !SomeSucceeded(y) && y.terminalCode == "SITE_CLONE_DEADLINE_EXCEEDED")
  }

  lemma SucceededRows(pages: map<Id, Page>)
    ensures Total(pages, IsSucceeded) > 0 <==> exists p :: p in pages && pages[p].status == Succeeded
    ensures Total(pages, IsSucceeded) >= 0
  {
    if p :| p in pages && pages[p].status == Succeeded {
      TallyNonNegative(pages, IsSucceeded, p);
    } else {
      NoneWithWeight(pages, IsSucceeded);
    }
  }

  lemma SettleMoves(b: Job, skipped: bool, now: int)
    requires b.status == CancelRequested && forall p :: p in b.pages ==> b.pages[p].status != Queued
    ensures var y := SettleCancel(b, skipped, now); y == b || Drained(y)
  {
    SucceededRows(b.pages);
    hide Total;
  }

  lemma NoneQueued(a: Job)
    requires a.status == CancelRequested
    ensures var b := CancelQueued(a);
      b.status == CancelRequested && b.phaseLease == a.phaseLease && forall p :: p in b.pages ==> b.pages[p].status != Queued
  {}

  lemma ReconcileMoves(x: Job, skipped: bool, now: int)
    ensures JobMoves(x, Reconcile(x, skipped, now), now)
  {
    var a := PastDeadline(x, now);
    if a.status == CancelRequested {
      NoneQueued(a);
      SettleMoves(CancelQueued(a), skipped, now);
      ReconcileParts(x, skipped, now);
    } else {
      Untouched(x, skipped, now);
    }
    hide CancelQueued, Drained, NoneWaits, SomeSucceeded, SettleCancel, Reconcile;
  }

  lemma Untouched(x: Job, skipped: bool, now: int)
    requires PastDeadline(x, now).status != CancelRequested
    ensures Reconcile(x, skipped, now) == x
  {}

  lemma ReconcileParts(x: Job, skipped: bool, now: int)
    ensures Reconcile(x, skipped, now) == SettleCancel(CancelQueued(PastDeadline(x, now)), skipped, now)
  {
    hide SettleCancel, CancelQueued, PastDeadline;
  }

  lemma PhaseMoves(x: Job, step: Step, now: int)
    requires CloneOk(x)
    requires step.FinishIngestionStep? || step.FinalizeEmptyStep? || step.ClaimAssemblyStep? || step.PublishStep? || step.RetryPhaseStep?
    ensures JobMoves(x, Apply(x, step, now), now)
  {
    SucceededRows(x.pages);
    hide PagesOk, StatusOk, ArtifactsOk, Total;
  }

  lemma StatusStays(x: Job, step: Step, now: int)
    requires step.ClaimIngestionStep? || step.ExtendPhaseStep? || step.AddTargetsStep? || step.StageStep?
          || step.ClaimPageStep? || step.ExtendPageStep? || step.CompletePageStep? || step.FailPageStep?
          || step.ClaimArtifactStep? || step.RetryArtifactStep? || step.ClaimBundleStep? || step.CompleteBundleStep? || step.RetryBundleStep?
    ensures Apply(x, step, now).status == x.status
  {
    hide Total, InsertTargets, StagedRows, StageMatches;
  }

  lemma JobStep(x: Job, step: Step, now: int)
    requires CloneOk(x)
    ensures JobMoves(x, Apply(x, step, now), now)
  {
    hide CloneOk, SomeSucceeded, NoneWaits, Drained;
    match step
    case ReconcileStep(skipped) => ReconcileMoves(x, skipped, now);
    case FinishIngestionStep(_, _) => PhaseMoves(x, step, now);
    case FinalizeEmptyStep => PhaseMoves(x, step, now);
    case ClaimAssemblyStep(_) => PhaseMoves(x, step, now);
    case PublishStep(_, _, _) => PhaseMoves(x, step, now);
    case RetryPhaseStep(_, _, _, _, _, _) => PhaseMoves(x, step, now);
    case CancelStep =>
    case CompleteArtifactStep(k) =>
    case _ => StatusStays(x, step, now);
  }

  /** Over whole runs, a job changes its status only for these reasons. */
  lemma JobsMove(run: seq<Job>, step: Step, now: int)
    requires IsCloneRun(run)
    ensures JobMoves(Latest(run), Apply(Latest(run), step, now), now)
  {
    CloneRunOk(run);
    hide IsCloneRun, CloneOk, Apply, JobMoves;
    JobStep(Latest(run), step, now);
  }

  /** A phase that fails is tried again, at `retryAt` and with its lease gone, before the third attempt; the third ends the job. */
  lemma PhaseFails(x: Job, owner: Id, generation: nat, phase: JobStatus, attempt: nat, code: string, retryAt: int, now: int)
    requires phase == Ingesting || phase == Assembling
    ensures var y := Apply(x, RetryPhaseStep(owner, generation, phase, attempt, code, retryAt), now);
      if x.status != phase || x.phaseGeneration != generation || x.phaseLease.None? || x.phaseLease.value.owner != owner then y == x
      else
        && y.phaseLease == None && y.terminalCode == code && y.pages == x.pages && y.artifacts.Keys == x.artifacts.Keys
        && (forall k :: k in x.artifacts ==>
              y.artifacts[k] == if k.generation == generation && x.artifacts[k].state == Staged then x.artifacts[k].(deleteAfter := now) else x.artifacts[k])
        && if attempt < 3 then y.status == phase && y.phaseAttempts == x.phaseAttempts + 1 && y.phaseAvailableAt == retryAt
           else y.status == Failed
  {}

  /** Every job that is or was published has a page that succeeded. */
  lemma PublishedHasPage(run: seq<Job>)
    requires IsCloneRun(run)
    requires Latest(run).status == Published || Latest(run).status == Partial || Latest(run).status == Expired
    ensures SomeSucceeded(Latest(run))
  {
    CloneRunOk(run);
    SucceededRows(Latest(run).pages);
    hide IsCloneRun, PagesOk, ArtifactsOk, Total;
  }

  // ----------------------------------------------------------- phase leases

  function PhaseTime(status: JobStatus): int {
    if status == Assembling then 300_000 else 60_000
  }

  /** A phase is leased only when it is due and nobody holds it, under the next generation; its holder may extend it. */
  ghost predicate LeaseMoves(x: Job, y: Job, now: int) {
    || (y.phaseLease == x.phaseLease && y.phaseGeneration == x.phaseGeneration)
    || (y.phaseLease == None && y.phaseGeneration == x.phaseGeneration)
    || (y.phaseLease.Some? && y.phaseLease.value.expiresAt == now + PhaseTime(y.status)
        && ((x.phaseLease.Some? && x.phaseLease.value.owner == y.phaseLease.value.owner && y.phaseGeneration == x.phaseGeneration)
            || (!LeaseRuns(x.phaseLease, now) && x.phaseAvailableAt <= now && y.phaseGeneration == x.phaseGeneration + 1
                && (y.status == Ingesting || y.status == Assembling))))
  }

  lemma LeasesMove(x: Job, step: Step, now: int)
    ensures LeaseMoves(x, Apply(x, step, now), now)
  {
    hide Total, InsertTargets, StagedRows, StageMatches, NoOpenPages, AnyCancelled, Remaining;
  }

  // --------------------------------------------------------------- artifacts

  /** What one transaction may do to an artifact row; `y` is the job after it. */
  ghost predicate ArtifactMoves(x: Job, y: Job, a: Artifact, b: Artifact, now: int) {
    || b == a
    || (a.state == Staged && b == a.(state := Live, deleteAfter := now + x.limits.retention)
        && x.status == Assembling && LeaseRuns(x.phaseLease, now) && (y.status == Published || y.status == Partial))
    || (a.state != Deleted && a.deleteAfter <= now && b == a.(state := if a.state == Staged then Staged else DeletePending, deleteAfter := now + 30_000))
    || ((a.state == Staged || a.state == DeletePending) && (b == a.(state := Deleted) || b == a.(deleteAfter := now + 60_000)))
    || (a.state == Staged && b == a.(deleteAfter := now) && y.phaseLease == None && x.phaseLease.Some?)
  }

  /** Artifacts go live only under a running assembly, for the time of their retention, and are collected only when due. */
  lemma ArtifactsMove(x: Job, step: Step, now: int, k: ArtifactKey)
    requires k in x.artifacts
    ensures var y := Apply(x, step, now);
      k in y.artifacts && ArtifactMoves(x, y, x.artifacts[k], y.artifacts[k], now)
  {
    hide Total, InsertTargets, StageMatches, NoOpenPages, AnyCancelled, Remaining;
  }

  /** An artifact row begins staged for a day, under a running assembly lease of its generation. */
  lemma NewArtifact(x: Job, step: Step, now: int, k: ArtifactKey)
    requires k !in x.artifacts && k in Apply(x, step, now).artifacts
    ensures Apply(x, step, now).artifacts[k] == Artifact(Staged, Apply(x, step, now).artifacts[k].bytes, now + 86_400_000)
    ensures x.status == Assembling && LeaseRuns(x.phaseLease, now) && k.generation == x.phaseGeneration
  {
    hide Total, InsertTargets, StageMatches, NoOpenPages, AnyCancelled, Remaining;
  }

  // ----------------------------------------------------------------- targets

  predicate SameKey(a: Page, b: Page) {
    a.ordinal == b.ordinal || a.urlHash == b.urlHash || a.path == b.path
  }

  ghost predicate KeysDiffer(pages: map<Id, Page>) {
    forall p, q {:trigger SameKey(pages[p], pages[q])} :: p in pages && q in pages && SameKey(pages[p], pages[q]) ==> p == q
  }

  /** The row a target becomes: waiting for its first attempt, or left out with the code of its rejection. */
  predicate RowOf(page: Page, t: Target, now: int) {
    && page.ordinal == t.ordinal && page.urlHash == t.urlHash && page.path == t.path && page.attempts == 0 && page.lease == None
    && page.bundle == NoBundle
    && if t.rejection == None then page.status == Queued && page.availableAt == now && !page.rejected
       else page.status == PageCancelled && page.rejected && page.code == ReasonCode(t.rejection.value)
  }

  ghost predicate ComesFrom(page: Page, targets: seq<Target>, p: Id, now: int) {
    exists i :: 0 <= i < |targets| && targets[i].page == p && RowOf(page, targets[i], now)
  }

  /** Every target has a row of its own or clashes with one, and every new row is that of a target. */
  lemma {:induction false} TargetsInserted(pages: map<Id, Page>, targets: seq<Target>, now: int)
    requires KeysDiffer(pages)
    ensures var r := InsertTargets(pages, targets, now);
      && KeysDiffer(r)
      && (forall t :: t in targets ==> Conflicts(r, t))
      && (forall p :: p in r && p !in pages ==> ComesFrom(r[p], targets, p, now))
    decreases |targets|
  {
    if targets != [] {
      var first, rest := InsertTarget(pages, targets[0], now), targets[1..];
      InsertedOne(pages, targets[0], now);
      TargetsInserted(first, rest, now);
      var r := InsertTargets(pages, targets, now);
      forall t | t in targets ensures Conflicts(r, t) {
        if t == targets[0] {
          StillConflicts(first, rest, now, t);
        } else {
          assert t in rest;
        }
      }
      forall p | p in r && p !in pages ensures ComesFrom(r[p], targets, p, now) {
        if p in first {
          TargetsStay(first, rest, now, p);
          assert targets[0].page == p && RowOf(r[p], targets[0], now);
        } else {
          var i :| 0 <= i < |rest| && rest[i].page == p && RowOf(r[p], rest[i], now);
          assert targets[i + 1] == rest[i];
        }
      }
    }
  }

  lemma InsertedOne(pages: map<Id, Page>, t: Target, now: int)
    requires KeysDiffer(pages)
    ensures var r := InsertTarget(pages, t, now);
      && KeysDiffer(r) && Conflicts(r, t)
      && forall p :: p in r && p !in pages ==> p == t.page && RowOf(r[p], t, now)
  {
    hide ReasonCode;
    var r := InsertTarget(pages, t, now);
    if r != pages {
      forall p, q | p in r && q in r && SameKey(r[p], r[q]) ensures p == q {
        if p != t.page && q != t.page {
          assert SameKey(pages[p], pages[q]);
        }
      }
    }
  }

  lemma StillConflicts(pages: map<Id, Page>, targets: seq<Target>, now: int, t: Target)
    requires Conflicts(pages, t)
    ensures Conflicts(InsertTargets(pages, targets, now), t)
  {
    hide InsertTargets;
    if t.page in pages {
      TargetsStay(pages, targets, now, t.page);
    } else {
      var p :| p in pages && (pages[p].ordinal == t.ordinal || pages[p].urlHash == t.urlHash || pages[p].path == t.path);
      TargetsStay(pages, targets, now, p);
    }
  }

  lemma KeysStay(x: Job, step: Step, now: int)
    requires !step.AddTargetsStep?
    ensures Apply(x, step, now).pages.Keys == x.pages.Keys
  {
    if step.ReconcileStep? {
      ReconcileKeys(x, step.skipped, now);
    } else if step.ClaimPageStep? {
      assert ReclaimPages(x, step.some, now).pages.Keys == x.pages.Keys by { hide Total; }
      hide ReclaimPages, Total;
    } else {
      hide Total, InsertTargets, StagedRows, StageMatches, NoOpenPages, AnyCancelled, Remaining, ReclaimPages, Reconcile;
    }
  }

  lemma ReconcileKeys(x: Job, skipped: bool, now: int)
    ensures Reconcile(x, skipped, now).pages.Keys == x.pages.Keys
  {
    var b := CancelQueued(PastDeadline(x, now));
    assert b.pages.Keys == x.pages.Keys;
    hide Total, PastDeadline, CancelQueued;
  }

  lemma KeysKept(x: Job, y: Job, now: int)
    requires KeysDiffer(x.pages) && y.pages.Keys == x.pages.Keys
    requires forall p :: p in x.pages ==> PageMoves(x, x.pages[p], y.pages[p], now)
    ensures KeysDiffer(y.pages)
  {
    hide Turns;
    forall p, q | p in y.pages && q in y.pages && SameKey(y.pages[p], y.pages[q]) ensures p == q {
      assert PageMoves(x, x.pages[p], y.pages[p], now) && PageMoves(x, x.pages[q], y.pages[q], now);
      assert SameKey(x.pages[p], x.pages[q]);
    }
  }

  lemma AddedKeys(x: Job, owner: Id, generation: nat, targets: seq<Target>, now: int)
    requires KeysDiffer(x.pages)
    ensures KeysDiffer(AddTargets(x, owner, generation, targets, now).pages)
  {
    TargetsInserted(x.pages, targets, now);
    hide InsertTargets, KeysDiffer;
  }

  /** In every reachable state no two pages of a job share ordinal, URL or path. */
  lemma {:induction false} RowsDistinct(run: seq<Job>)
    requires IsCloneRun(run)
    ensures KeysDiffer(Latest(run).pages)
  {
    if |run| > 1 {
      var init := run[..|run| - 1];
      forall i | 0 < i < |init| ensures NextAt(init, i) {
        assert NextAt(run, i);
      }
      assert IsCloneRun(init);
      RowsDistinct(init);
      var step, now := RunStepAt(run, |run| - 1);
      hide IsCloneRun, CloneOk, Apply, KeysDiffer, PageMoves;
      DistinctStep(init, step, now);
    } else {
      NoKeys(run);
    }
  }

  lemma NoKeys(run: seq<Job>)
    requires IsCloneRun(run) && |run| == 1
    ensures KeysDiffer(Latest(run).pages)
  {}

  lemma DistinctStep(run: seq<Job>, step: Step, now: int)
    requires IsCloneRun(run) && KeysDiffer(Latest(run).pages)
    ensures KeysDiffer(Apply(Latest(run), step, now).pages)
  {
    var x := Latest(run);
    if step.AddTargetsStep? {
      AddedKeys(x, step.owner, step.generation, step.targets, now);
    } else {
      hide IsCloneRun, Apply, KeysDiffer, PageMoves;
      KeysStay(x, step, now);
      forall p | p in x.pages ensures PageMoves(x, x.pages[p], Apply(x, step, now).pages[p], now) { PagesMove(run, step, now, p); }
      KeysKept(x, Apply(x, step, now), now);
    }
  }

  /** Adding targets under the running lease of an ingestion: all of them, unless the job would have too many pages. */
  lemma TargetsAdded(x: Job, owner: Id, generation: nat, targets: seq<Target>, now: int)
    requires KeysDiffer(x.pages)
    ensures var y := Apply(x, AddTargetsStep(owner, generation, targets), now);
      && y == x.(pages := y.pages)
      && (y.pages != x.pages ==>
            && x.status == Ingesting && LeaseRuns(x.phaseLease, now) && x.phaseLease.value.owner == owner
            && x.phaseGeneration == generation && |y.pages| <= x.limits.maxPages)
      && (y.pages != x.pages ==> forall t :: t in targets ==> Conflicts(y.pages, t))
      && (forall p :: p in y.pages && p !in x.pages ==> ComesFrom(y.pages[p], targets, p, now))
      && (forall p :: p in x.pages ==> p in y.pages && y.pages[p] == x.pages[p])
  {
    TargetsInserted(x.pages, targets, now);
    forall p | p in x.pages ensures p in InsertTargets(x.pages, targets, now) && InsertTargets(x.pages, targets, now)[p] == x.pages[p] {
      TargetsStay(x.pages, targets, now, p);
    }
    hide InsertTargets, KeysDiffer, ComesFrom, Conflicts;
  }
}
