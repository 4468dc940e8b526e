/**
 * One site-clone job with its pages and artifacts: every transaction of the
 * site-clone database as one transition. Times are milliseconds.
 */
module SiteClone {
  import opened Common
  import D = DesignSelection

  const PAGE_LEASE := 60_000
  const INGEST_LEASE := 60_000
  const ASSEMBLY_LEASE := 300_000
  const STAGING_LIFE := 86_400_000
  const CLAIM_HOLD := 30_000
  const RETRY_HOLD := 60_000
  const MAX_PHASE_ATTEMPTS := 3
  const USER_CANCELLED := "CANCELLED"
  const OVER_BUDGET := "SITE_INPUT_BUDGET_EXCEEDED"
  const DEADLINE := "SITE_CLONE_DEADLINE_EXCEEDED"

  datatype JobStatus =
    Ingesting | Running | Assembling | CancelRequested | Published | Partial | Failed | Cancelled | Expired

  datatype PageStatus = Queued | Rendering | Succeeded | PageFailed | PageCancelled

  datatype BundleState = NoBundle | Available | BundlePending | BundleDeleted

  /** A row of site_reconstruction_pages. `rejected` records that ingestion inserted it as cancelled. */
  datatype Page = Page(
    ordinal: nat, urlHash: string, path: string, status: PageStatus, code: string, rejected: bool,
    attempts: nat, availableAt: int, lease: Option<Lease>, generation: nat,
    inputBytes: nat, bundle: BundleState, bundleDeleteAfter: int)

  /** A target that ingestion adds: to be rendered, or rejected with a reason. */
  datatype Target = Target(page: Id, ordinal: nat, urlHash: string, path: string, rejection: Option<D.Reason>)

  /** The failure code under which ingestion inserts a rejected page; none reads like a cancellation. */
  function ReasonCode(reason: D.Reason): (code: string)
    ensures code != USER_CANCELLED
  {
    match reason
    case AlternateLocale => "ALTERNATE_LOCALE"
    case QueryVariant => "TRACKING_OR_QUERY_VARIANT"
    case CanonicalDuplicate => "CANONICAL_DUPLICATE"
    case TemplateDuplicate => "SEMANTIC_TEMPLATE_DUPLICATE"
    case NonHtml => "NON_HTML"
    case ExternalOrigin => "EXTERNAL_ORIGIN"
    case PolicyBlocked => "ROBOTS_OR_POLICY_BLOCKED"
    case HttpFailure => "HTTP_FAILURE"
    case BudgetLimited => "BUDGET_LIMITED"
  }

  datatype Kind = Shard | ManifestFile

  datatype ArtifactState = Staged | Live | DeletePending | Deleted

  datatype Part = Part(kind: Kind, number: nat)

  /** Artifact rows are unique per generation and part. */
  datatype ArtifactKey = ArtifactKey(generation: nat, part: Part)

  datatype Artifact = Artifact(state: ArtifactState, bytes: nat, deleteAfter: int)

  datatype Limits = Limits(
    maxPages: nat, maxInputBytes: nat, maxArchiveBytes: nat, pageConcurrency: nat, maxRetries: nat,
    retention: nat, deadline: int)

  datatype Job = Job(
    limits: Limits, status: JobStatus, pages: map<Id, Page>,
    discovered: int, processed: int, succeeded: int, failed: int, inputBytes: int,
    ingested: bool, phaseLease: Option<Lease>, phaseGeneration: nat, phaseAttempts: nat, phaseAvailableAt: int,
    terminalCode: string, artifacts: map<ArtifactKey, Artifact>, archiveBytes: int, artifactCount: nat)

  predicate Terminal(status: JobStatus) {
    status == Published || status == Partial || status == Failed || status == Cancelled || status == Expired
  }

  function NewJob(limits: Limits, now: int): Job {
    Job(limits, Ingesting, map[], 0, 0, 0, 0, 0, false, None, 0, 0, now, "", map[], 0, 0)
  }

  // ----------------------------------------------------------------- recounts

  function IsSucceeded(page: Page): int { if page.status == Succeeded then 1 else 0 }
  function IsFailed(page: Page): int { if page.status == PageFailed then 1 else 0 }
  function IsRendering(page: Page): int { if page.status == Rendering then 1 else 0 }
  function SucceededBytes(page: Page): int { if page.status == Succeeded then page.inputBytes else 0 }

  /** refreshJobCounters. */
  ghost function Refresh(x: Job): Job {
    var succeeded, failed := Total(x.pages, IsSucceeded), Total(x.pages, IsFailed);
    x.(processed := succeeded + failed, succeeded := succeeded, failed := failed, inputBytes := Total(x.pages, SucceededBytes))
  }

  /** incrementJob. */
  function Increment(x: Job, succeeded: bool, bytes: nat): Job {
    x.(processed := x.processed + 1,
       succeeded := x.succeeded + (if succeeded then 1 else 0),
       failed := x.failed + (if succeeded then 0 else 1),
       inputBytes := x.inputBytes + bytes)
  }

  predicate Open(page: Page) {
    page.status == Queued || page.status == Rendering
  }

  predicate NoOpenPages(x: Job) {
    forall p :: p in x.pages ==> !Open(x.pages[p])
  }

  // ---------------------------------------------------------------- ingestion

  predicate HoldsPhase(x: Job, owner: Id, generation: nat) {
    x.phaseLease.Some? && x.phaseLease.value.owner == owner && x.phaseGeneration == generation
  }

  predicate PhaseFree(x: Job, now: int) {
    x.phaseLease.None? || x.phaseLease.value.expiresAt <= now
  }

  function ClaimIngestion(x: Job, owner: Id, now: int): Job {
    if x.status != Ingesting || x.phaseAvailableAt > now || !PhaseFree(x, now) then x
    else x.(phaseLease := Some(Lease(owner, now + INGEST_LEASE)), phaseGeneration := x.phaseGeneration + 1)
  }

  function ExtendPhase(x: Job, owner: Id, generation: nat, now: int): Job {
    if !HoldsPhase(x, owner, generation) || (x.status != Ingesting && x.status != Assembling) then x
    else x.(phaseLease := Some(Lease(owner, now + (if x.status == Assembling then ASSEMBLY_LEASE else INGEST_LEASE))))
  }

  /** A unique key of the table is already taken. */
  predicate Conflicts(pages: map<Id, Page>, t: Target) {
    t.page in pages
    || exists p :: p in pages && (pages[p].ordinal == t.ordinal || pages[p].urlHash == t.urlHash || pages[p].path == t.path)
  }

  function NewPage(t: Target, now: int): Page {
    Page(t.ordinal, t.urlHash, t.path, if t.rejection.Some? then PageCancelled else Queued,
         if t.rejection.Some? then ReasonCode(t.rejection.value) else "", t.rejection.Some?, 0, now, None, 0, 0, NoBundle, 0)
  }

  /** Insertion of one target; a target that clashes with a row is passed over. */
  function InsertTarget(pages: map<Id, Page>, t: Target, now: int): map<Id, Page> {
    if Conflicts(pages, t) then pages else pages[t.page := NewPage(t, now)]
  }

  function InsertTargets(pages: map<Id, Page>, targets: seq<Target>, now: int): map<Id, Page>
    decreases targets
  {
    if targets == [] then pages else InsertTargets(InsertTarget(pages, targets[0], now), targets[1..], now)
  }

  function AddTargets(x: Job, owner: Id, generation: nat, targets: seq<Target>, now: int): Job {
    if x.status != Ingesting || !HoldsPhase(x, owner, generation) || x.phaseLease.value.expiresAt <= now then x
    else
      var pages := InsertTargets(x.pages, targets, now);
      if |pages| > x.limits.maxPages then x else x.(pages := pages)
  }

  function FinishIngestion(x: Job, owner: Id, generation: nat, now: int): Job {
    if x.status != Ingesting || !HoldsPhase(x, owner, generation) then x
    else if |x.pages| == 0 then x.(status := Failed, phaseLease := None, terminalCode := "NO_CLONEABLE_PAGES")
    else x.(status := Running, phaseLease := None, phaseAttempts := 0, phaseAvailableAt := now,
            discovered := |x.pages|, ingested := true)
  }

  // -------------------------------------------------------------------- pages

  predicate HoldsPage(x: Job, p: Id, owner: Id, generation: nat) {
    && p in x.pages && x.pages[p].status == Rendering
    && x.pages[p].lease.Some? && x.pages[p].lease.value.owner == owner && x.pages[p].generation == generation
  }

  predicate PageExpired(page: Page, now: int) {
    page.status == Rendering && page.lease.Some? && page.lease.value.expiresAt <= now
  }

  function ReclaimedPage(page: Page, maxRetries: nat, now: int): Page {
    if page.attempts < maxRetries
    then page.(status := Queued, availableAt := now, lease := None, code := "PAGE_LEASE_EXPIRED")
    else page.(status := PageFailed, lease := None, code := "PAGE_LEASE_EXPIRED")
  }

  /** claimPage, first half: some of the expired pages are taken back and the job is recounted. */
  ghost function ReclaimPages(x: Job, some: set<Id>, now: int): Job {
    if !(exists p :: p in x.pages && p in some && PageExpired(x.pages[p], now)) then x
    else Refresh(x.(pages := map p | p in x.pages ::
      if p in some && PageExpired(x.pages[p], now) then ReclaimedPage(x.pages[p], x.limits.maxRetries, now) else x.pages[p]))
  }

  ghost predicate PageClaimable(x: Job, p: Id, now: int) {
    && x.status == Running
    && p in x.pages && x.pages[p].status == Queued && x.pages[p].availableAt <= now
    && Total(x.pages, IsRendering) < x.limits.pageConcurrency
  }

  /** claimPage, second half. */
  ghost function LeasePage(x: Job, p: Id, owner: Id, now: int): Job {
    if !PageClaimable(x, p, now) then x
    else
      var page := x.pages[p];
      x.(pages := x.pages[p := page.(
        status := Rendering, lease := Some(Lease(owner, now + PAGE_LEASE)), generation := page.generation + 1,
        attempts := page.attempts + 1, code := "")])
  }

  ghost function ClaimPage(x: Job, some: set<Id>, p: Id, owner: Id, now: int): Job {
    LeasePage(ReclaimPages(x, some, now), p, owner, now)
  }

  function ExtendPage(x: Job, p: Id, owner: Id, generation: nat, now: int): Job {
    if !HoldsPage(x, p, owner, generation) then x
    else x.(pages := x.pages[p := x.pages[p].(lease := Some(Lease(owner, now + PAGE_LEASE)))])
  }

  function WithoutBundle(page: Page, status: PageStatus, code: string): Page {
    page.(status := status, lease := None, code := code)
  }

  function CompletePage(x: Job, p: Id, owner: Id, generation: nat, bytes: nat, now: int): Job {
    if !HoldsPage(x, p, owner, generation) then x
    else if x.status == CancelRequested then
      x.(pages := x.pages[p := WithoutBundle(x.pages[p], PageCancelled, USER_CANCELLED)])
    else if x.inputBytes + bytes > x.limits.maxInputBytes then
      Increment(x.(pages := x.pages[p := WithoutBundle(x.pages[p], PageFailed, OVER_BUDGET)]), false, 0)
    else if bytes == 0 then x                                    // refused by the table's own check
    else
      Increment(x.(pages := x.pages[p := x.pages[p].(
        status := Succeeded, lease := None, inputBytes := bytes, code := "", bundle := Available, bundleDeleteAfter := now)]), true, bytes)
  }

  function FailPage(x: Job, p: Id, owner: Id, generation: nat, code: string, retryAt: int): Job {
    if !HoldsPage(x, p, owner, generation) then x
    else if x.pages[p].attempts < x.limits.maxRetries then
      x.(pages := x.pages[p := x.pages[p].(status := Queued, availableAt := retryAt, lease := None, code := code)])
    else Increment(x.(pages := x.pages[p := WithoutBundle(x.pages[p], PageFailed, code)]), false, 0)
  }

  // ----------------------------------------------------------------- assembly

  function FinalizeEmpty(x: Job): Job {
    if x.status != Running || !x.ingested || x.succeeded != 0 || !NoOpenPages(x) then x
    else x.(status := Failed, terminalCode := "ALL_PAGES_FAILED")
  }

  function ClaimAssembly(x: Job, owner: Id, now: int): Job {
    if (x.status != Running && x.status != Assembling) || !x.ingested || x.phaseAvailableAt > now
       || x.succeeded <= 0 || !NoOpenPages(x) || !PhaseFree(x, now) then x
    else x.(status := Assembling, phaseLease := Some(Lease(owner, now + ASSEMBLY_LEASE)), phaseGeneration := x.phaseGeneration + 1)
  }

  function Size(bytes: nat): int { bytes }

  ghost predicate MayStage(x: Job, owner: Id, generation: nat, files: map<Part, nat>, now: int) {
    && files != map[]
    && x.status == Assembling && HoldsPhase(x, owner, generation) && x.phaseLease.value.expiresAt > now
    && Total(files, Size) <= x.limits.maxArchiveBytes
  }

  function StagedRows(artifacts: map<ArtifactKey, Artifact>, generation: nat, files: map<Part, nat>, now: int): map<ArtifactKey, Artifact> {
    (map part | part in files :: ArtifactKey(generation, part) := Artifact(Staged, files[part], now + STAGING_LIFE)) + artifacts
  }

  /** The rows of the generation are exactly the files, all staged. */
  predicate StageMatches(artifacts: map<ArtifactKey, Artifact>, generation: nat, files: map<Part, nat>) {
    && (forall k :: k in artifacts && k.generation == generation ==>
          k.part in files && artifacts[k].state == Staged && artifacts[k].bytes == files[k.part])
    && (forall part :: part in files ==> ArtifactKey(generation, part) in artifacts)
  }

  ghost function StageArtifacts(x: Job, owner: Id, generation: nat, files: map<Part, nat>, now: int): Job {
    if !MayStage(x, owner, generation, files, now) then x
    else
      var rows := StagedRows(x.artifacts, generation, files, now);
      if StageMatches(rows, generation, files) then x.(artifacts := rows) else x
  }

  predicate AnyCancelled(x: Job) {
    exists p :: p in x.pages && x.pages[p].status == PageCancelled && x.pages[p].code == USER_CANCELLED
  }

  /** publishArtifacts after its staging: the staged rows of the generation go live and the job ends. */
  ghost function PublishArtifacts(x: Job, owner: Id, generation: nat, files: map<Part, nat>, now: int): Job {
    if !MayStage(x, owner, generation, files, now) then x
    else x.(
      artifacts := map k | k in x.artifacts ::
        if k.generation == generation && x.artifacts[k].state == Staged
        then x.artifacts[k].(state := Live, deleteAfter := now + x.limits.retention) else x.artifacts[k],
      status := if x.failed > 0 || AnyCancelled(x) then Partial else Published,
      phaseLease := None, archiveBytes := Total(files, Size), artifactCount := |files|)
  }

  /** retryPhase: `attempt` is the attempt the failed claim was told. */
  function RetryPhase(x: Job, owner: Id, generation: nat, phase: JobStatus, attempt: nat, code: string, retryAt: int, now: int): Job {
    if x.status != phase || (phase != Ingesting && phase != Assembling) || !HoldsPhase(x, owner, generation) then x
    else
      var exhausted := attempt >= MAX_PHASE_ATTEMPTS;
      x.(status := if exhausted then Failed else phase, phaseLease := None,
         phaseAttempts := if exhausted then x.phaseAttempts else x.phaseAttempts + 1,
         phaseAvailableAt := if exhausted then x.phaseAvailableAt else retryAt,
         terminalCode := code,
         artifacts := map k | k in x.artifacts ::
           if k.generation == generation && x.artifacts[k].state == Staged then x.artifacts[k].(deleteAfter := now) else x.artifacts[k])
  }

  // ------------------------------------------------------------- cancellation

  function RequestCancel(x: Job): Job {
    if Terminal(x.status) then x else x.(status := CancelRequested, phaseLease := None)
  }

  function PastDeadline(x: Job, now: int): Job {
    if (x.status == Ingesting || x.status == Running || x.status == Assembling) && x.limits.deadline <= now
    then x.(status := CancelRequested, phaseLease := None, terminalCode := DEADLINE) else x
  }

  function CancelQueued(x: Job): Job {
    if x.status != CancelRequested then x
    else x.(pages := map p | p in x.pages ::
      if x.pages[p].status == Queued then x.pages[p].(status := PageCancelled, code := USER_CANCELLED) else x.pages[p])
  }

  /** A cancelling job without rendering pages is recounted and either assembled from what it has, or ended. */
  ghost function SettleCancel(x: Job, skipped: bool, now: int): Job {
    if skipped || x.status != CancelRequested || exists p :: p in x.pages && x.pages[p].status == Rendering then x
    else
      var y := Refresh(x);
      y.(status := if y.succeeded > 0 then Running else if y.terminalCode == DEADLINE then Failed else Cancelled,
         phaseLease := None, phaseAttempts := 0, phaseAvailableAt := now,
         terminalCode := if y.terminalCode == DEADLINE then DEADLINE
                         else if y.succeeded > 0 then "CANCELLED_PARTIAL" else USER_CANCELLED)
  }

  ghost function Reconcile(x: Job, skipped: bool, now: int): Job {
    SettleCancel(CancelQueued(PastDeadline(x, now)), skipped, now)
  }

  // --------------------------------------------------------------- collection

  function ClaimArtifact(x: Job, k: ArtifactKey, now: int): Job {
    if k !in x.artifacts || x.artifacts[k].state == Deleted || x.artifacts[k].deleteAfter > now then x
    else x.(artifacts := x.artifacts[k := x.artifacts[k].(
      state := if x.artifacts[k].state == Staged then Staged else DeletePending, deleteAfter := now + CLAIM_HOLD)])
  }

  /** Some artifact is live or on its way out. */
  predicate Remaining(artifacts: map<ArtifactKey, Artifact>) {
    exists k :: k in artifacts && (artifacts[k].state == Live || artifacts[k].state == DeletePending)
  }

  function CompleteArtifact(x: Job, k: ArtifactKey): Job {
    if k !in x.artifacts || (x.artifacts[k].state != Staged && x.artifacts[k].state != DeletePending) then x
    else
      var artifacts := x.artifacts[k := x.artifacts[k].(state := Deleted)];
      x.(artifacts := artifacts,
         status := if !Remaining(artifacts) && (x.status == Published || x.status == Partial) then Expired else x.status)
  }

  function RetryArtifact(x: Job, k: ArtifactKey, now: int): Job {
    if k !in x.artifacts || (x.artifacts[k].state != Staged && x.artifacts[k].state != DeletePending) then x
    else x.(artifacts := x.artifacts[k := x.artifacts[k].(deleteAfter := now + RETRY_HOLD)])
  }

  predicate BundleClaimable(x: Job, p: Id, now: int) {
    && Terminal(x.status)
    && p in x.pages && x.pages[p].status == Succeeded
    && (x.pages[p].bundle == Available || x.pages[p].bundle == BundlePending)
    && x.pages[p].bundleDeleteAfter <= now
  }

  function ClaimBundle(x: Job, p: Id, now: int): Job {
    if !BundleClaimable(x, p, now) then x
    else x.(pages := x.pages[p := x.pages[p].(bundle := BundlePending, bundleDeleteAfter := now + CLAIM_HOLD)])
  }

  function CompleteBundle(x: Job, p: Id, now: int): Job {
    if p !in x.pages || x.pages[p].bundle != BundlePending then x
    else x.(pages := x.pages[p := x.pages[p].(bundle := BundleDeleted, bundleDeleteAfter := now)])
  }

  function RetryBundle(x: Job, p: Id, now: int): Job {
    if p !in x.pages || x.pages[p].bundle != BundlePending then x
    else x.(pages := x.pages[p := x.pages[p].(bundleDeleteAfter := now + RETRY_HOLD)])
  }

  // -------------------------------------------------------------------- steps

  datatype Step =
    | ClaimIngestionStep(owner: Id) | ExtendPhaseStep(owner: Id, generation: nat)
    | AddTargetsStep(owner: Id, generation: nat, targets: seq<Target>) | FinishIngestionStep(owner: Id, generation: nat)
    | ClaimPageStep(some: set<Id>, page: Id, owner: Id) | ExtendPageStep(page: Id, owner: Id, generation: nat)
    | CompletePageStep(page: Id, owner: Id, generation: nat, bytes: nat)
    | FailPageStep(page: Id, owner: Id, generation: nat, code: string, retryAt: int)
    | FinalizeEmptyStep | ClaimAssemblyStep(owner: Id)
    | StageStep(owner: Id, generation: nat, files: map<Part, nat>) | PublishStep(owner: Id, generation: nat, files: map<Part, nat>)
    | RetryPhaseStep(owner: Id, generation: nat, phase: JobStatus, attempt: nat, code: string, retryAt: int)
    | CancelStep | ReconcileStep(skipped: bool)
    | ClaimArtifactStep(artifact: ArtifactKey) | CompleteArtifactStep(artifact: ArtifactKey) | RetryArtifactStep(artifact: ArtifactKey)
    | ClaimBundleStep(page: Id) | CompleteBundleStep(page: Id) | RetryBundleStep(page: Id)

  ghost function Apply(x: Job, step: Step, now: int): Job {
    match step
    case ClaimIngestionStep(owner) => ClaimIngestion(x, owner, now)
    case ExtendPhaseStep(owner, generation) => ExtendPhase(x, owner, generation, now)
    case AddTargetsStep(owner, generation, targets) => AddTargets(x, owner, generation, targets, now)
    case FinishIngestionStep(owner, generation) => FinishIngestion(x, owner, generation, now)
    case ClaimPageStep(some, p, owner) => ClaimPage(x, some, p, owner, now)
    case ExtendPageStep(p, owner, generation) => ExtendPage(x, p, owner, generation, now)
    case CompletePageStep(p, owner, generation, bytes) => CompletePage(x, p, owner, generation, bytes, now)
    case FailPageStep(p, owner, generation, code, retryAt) => FailPage(x, p, owner, generation, code, retryAt)
    case FinalizeEmptyStep => FinalizeEmpty(x)
    case ClaimAssemblyStep(owner) => ClaimAssembly(x, owner, now)
    case StageStep(owner, generation, files) => StageArtifacts(x, owner, generation, files, now)
    case PublishStep(owner, generation, files) => PublishArtifacts(x, owner, generation, files, now)
    case RetryPhaseStep(owner, generation, phase, attempt, code, retryAt) =>
      RetryPhase(x, owner, generation, phase, attempt, code, retryAt, now)
    case CancelStep => RequestCancel(x)
    case ReconcileStep(skipped) => Reconcile(x, skipped, now)
    case ClaimArtifactStep(k) => ClaimArtifact(x, k, now)
    case CompleteArtifactStep(k) => CompleteArtifact(x, k)
    case RetryArtifactStep(k) => RetryArtifact(x, k, now)
    case ClaimBundleStep(p) => ClaimBundle(x, p, now)
    case CompleteBundleStep(p) => CompleteBundle(x, p, now)
    case RetryBundleStep(p) => RetryBundle(x, p, now)
  }

  ghost predicate Next(x: Job, y: Job) {
    exists step, now :: y == Apply(x, step, now)
  }

  ghost predicate NextAt(run: seq<Job>, i: nat)
    requires 0 < i < |run|
  {
    Next(run[i - 1], run[i])
  }

  /** The bounds the tables put on a job's policy. */
  predicate ValidLimits(limits: Limits) {
    1 <= limits.maxPages && 1 <= limits.pageConcurrency && 1 <= limits.maxRetries
  }

  /** Successive states of one job from its command on. */
  ghost predicate IsCloneRun(run: seq<Job>) {
    && |run| > 0
    && (exists limits, start :: ValidLimits(limits) && run[0] == NewJob(limits, start))
    && forall i {:trigger NextAt(run, i)} :: 0 < i < |run| ==> NextAt(run, i)
  }

  ghost function Latest(run: seq<Job>): Job
    requires |run| > 0
  {
    run[|run| - 1]
  }
}
