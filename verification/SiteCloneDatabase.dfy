/** The site-clone database's rows for one job, updated in place. */
module SiteCloneStore {
  import opened Common
  import opened SiteClone
  import opened SiteCloneInvariant
  import C = SiteClone

  /** An object claimed for deletion. */
  datatype Claim = OfArtifact(artifact: ArtifactKey) | OfBundle(page: Id)

  class SiteCloneDatabase {
    const limits: Limits
    var status: JobStatus
    var pages: map<Id, Page>
    var discovered: int
    var processed: int
    var succeeded: int
    var failed: int
    var inputBytes: int
    var ingested: bool
    var phaseLease: Option<Lease>
    var phaseGeneration: nat
    var phaseAttempts: nat
    var phaseAvailableAt: int
    var terminalCode: string
    var artifacts: map<ArtifactKey, Artifact>
    var archiveBytes: int
    var artifactCount: nat

    ghost function State(): Job
      reads this
    {
      Job(limits, status, pages, discovered, processed, succeeded, failed, inputBytes, ingested, phaseLease,
          phaseGeneration, phaseAttempts, phaseAvailableAt, terminalCode, artifacts, archiveBytes, artifactCount)
    }

    ghost predicate Valid()
      reads this
    {
      CloneOk(State())
    }

    constructor (limits: Limits, now: int)
      requires ValidLimits(limits)
      ensures Valid() && State() == NewJob(limits, now)
    {
      this.limits := limits;
      status, pages, ingested := Ingesting, map[], false;
      discovered, processed, succeeded, failed, inputBytes := 0, 0, 0, 0, 0;
      phaseLease, phaseGeneration, phaseAttempts, phaseAvailableAt := None, 0, 0, now;
      terminalCode, artifacts, archiveBytes, artifactCount := "", map[], 0, 0;
      new;
      NewJobOk(limits, now);
    }

    /** How many rows there are with each outcome that counts, how many bytes they brought in, and how many render. */
    method Recount(rows: map<Id, Page>) returns (won: int, lost: int, bytes: int, rendering: int)
      ensures won == Total(rows, IsSucceeded) && lost == Total(rows, IsFailed)
      ensures bytes == Total(rows, SucceededBytes) && rendering == Total(rows, IsRendering)
    {
      won, lost, bytes, rendering := 0, 0, 0, 0;
      var todo := rows;
      while todo != map[]
        invariant won + Total(todo, IsSucceeded) == Total(rows, IsSucceeded)
        invariant lost + Total(todo, IsFailed) == Total(rows, IsFailed)
        invariant bytes + Total(todo, SucceededBytes) == Total(rows, SucceededBytes)
        invariant rendering + Total(todo, IsRendering) == Total(rows, IsRendering)
        decreases |todo|
      {
        var p :| p in todo;
        TotalRemove(todo, IsSucceeded, p);
        TotalRemove(todo, IsFailed, p);
        TotalRemove(todo, SucceededBytes, p);
        TotalRemove(todo, IsRendering, p);
        won, lost := won + IsSucceeded(todo[p]), lost + IsFailed(todo[p]);
        bytes, rendering := bytes + SucceededBytes(todo[p]), rendering + IsRendering(todo[p]);
        assert todo.Keys == (todo - {p}).Keys + {p};
        todo := todo - {p};
      }
    }

    method RefreshJobCounters()
      modifies this
      ensures State() == Refresh(old(State()))
    {
      var won, lost, bytes, rendering := Recount(pages);
      processed, succeeded, failed, inputBytes := won + lost, won, lost, bytes;
    }

    method IncrementJob(success: bool, bytes: nat)
      modifies this
      ensures State() == Increment(old(State()), success, bytes)
    {
      processed := processed + 1;
      if success {
        succeeded := succeeded + 1;
      } else {
        failed := failed + 1;
      }
      inputBytes := inputBytes + bytes;
    }

    /** Adds the targets that clash with no row, or none when the page limit would be passed. */
    method AddTargets(owner: Id, generation: nat, targets: seq<Target>, now: int) returns (ok: bool)
      requires Valid()
      modifies this
      ensures Valid() && State() == C.AddTargets(old(State()), owner, generation, targets, now)
    {
      AddTargetsKeeps(State(), owner, generation, targets, now);
      hide CloneOk;
      if status != Ingesting || phaseLease.None? || phaseLease.value.owner != owner || phaseGeneration != generation
         || phaseLease.value.expiresAt <= now {
        return false;
      }
      var rows := InsertRows(pages, targets, now);
      if |rows| > limits.maxPages {
        return false;
      }
      pages := rows;
      ok := true;
    }

    /** The insert of many rows that passes over every row that clashes. */
    method InsertRows(before: map<Id, Page>, targets: seq<Target>, now: int) returns (rows: map<Id, Page>)
      ensures rows == InsertTargets(before, targets, now)
    {
      rows := before;
      for i := 0 to |targets|
        invariant InsertTargets(rows, targets[i..], now) == InsertTargets(before, targets, now)
      {
        assert targets[i..][1..] == targets[i + 1..];
        if !Conflicts(rows, targets[i]) {
          rows := rows[targets[i].page := NewPage(targets[i], now)];
        }
      }
    }

    /** Takes back expired leases, recounts, and leases one waiting page if the job may render another. */
    method ClaimPage(expired: set<Id>, owner: Id, now: int) returns (claimed: Option<Id>)
      requires Valid()
      modifies this
      ensures Valid()
      ensures claimed.Some? ==> PageClaimable(ReclaimPages(old(State()), expired, now), claimed.value, now)
      ensures claimed.Some? ==> State() == C.ClaimPage(old(State()), expired, claimed.value, owner, now)
      ensures claimed.None? ==> State() == ReclaimPages(old(State()), expired, now)
      ensures claimed.None? ==> forall p :: !PageClaimable(State(), p, now)
    {
      hide CloneOk, ReclaimPages;
      ReclaimKeeps(State(), expired, now);
      Reclaim(expired, now);
      var won, lost, bytes, rendering := Recount(pages);
      if status == Running && rendering < limits.pageConcurrency
         && exists p :: p in pages && pages[p].status == Queued && pages[p].availableAt <= now {
        var p :| p in pages && pages[p].status == Queued && pages[p].availableAt <= now;
        LeasePageKeeps(State(), p, owner, now);
        var page := pages[p];
        pages := pages[p := page.(status := Rendering, lease := Some(Lease(owner, now + PAGE_LEASE)),
                                  generation := page.generation + 1, attempts := page.attempts + 1, code := "")];
        claimed := Some(p);
      } else {
        claimed := None;
      }
    }

    method Reclaim(expired: set<Id>, now: int)
      modifies this
      ensures State() == ReclaimPages(old(State()), expired, now)
    {
      if exists p :: p in pages && p in expired && PageExpired(pages[p], now) {
        pages := map p | p in pages ::
          if p in expired && PageExpired(pages[p], now) then ReclaimedPage(pages[p], limits.maxRetries, now) else pages[p];
        RefreshJobCounters();
      }
    }

    predicate Held(p: Id, owner: Id, generation: nat)
      reads this
    {
      && p in pages && pages[p].status == Rendering
      && pages[p].lease.Some? && pages[p].lease.value.owner == owner && pages[p].generation == generation
    }

    /** True exactly when the bundle was accepted; a job over its budget fails the page, a cancelling one cancels it. */
    method CompletePage(p: Id, owner: Id, generation: nat, bytes: nat, now: int) returns (accepted: bool)
      requires Valid()
      modifies this
      ensures Valid() && State() == C.CompletePage(old(State()), p, owner, generation, bytes, now)
      ensures accepted ==> p in pages && pages[p].status == Succeeded && pages[p].bundle == Available
      ensures !accepted ==> inputBytes == old(inputBytes) && succeeded == old(succeeded)
    {
      CompletePageKeeps(State(), p, owner, generation, bytes, now);
      hide CloneOk;
      if !Held(p, owner, generation) {
        return false;
      }
      if status == CancelRequested {
        pages := pages[p := WithoutBundle(pages[p], PageCancelled, USER_CANCELLED)];
        return false;
      }
      if inputBytes + bytes > limits.maxInputBytes {
        pages := pages[p := WithoutBundle(pages[p], PageFailed, OVER_BUDGET)];
        IncrementJob(false, 0);
        return false;
      }
      if bytes == 0 {
        return false;
      }
      pages := pages[p := pages[p].(status := Succeeded, lease := None, inputBytes := bytes, code := "",
                                    bundle := Available, bundleDeleteAfter := now)];
      IncrementJob(true, bytes);
      accepted := true;
    }

    method FailPage(p: Id, owner: Id, generation: nat, code: string, retryAt: int)
      requires Valid()
      modifies this
      ensures Valid() && State() == C.FailPage(old(State()), p, owner, generation, code, retryAt)
    {
      FailPageKeeps(State(), p, owner, generation, code, retryAt);
      hide CloneOk;
      if !Held(p, owner, generation) {
        return;
      }
      if pages[p].attempts < limits.maxRetries {
        pages := pages[p := pages[p].(status := Queued, availableAt := retryAt, lease := None, code := code)];
      } else {
        pages := pages[p := WithoutBundle(pages[p], PageFailed, code)];
        IncrementJob(false, 0);
      }
    }

    /** Deadline, waiting pages, and then, once nothing renders, the job itself. */
    method ReconcileCancellation(skipped: bool, now: int)
      requires Valid()
      modifies this
      ensures Valid() && State() == Reconcile(old(State()), skipped, now)
    {
      hide CloneOk, PastDeadline, CancelQueued, SettleCancel;
      ReconcileKeeps(State(), skipped, now);
      ApplyDeadline(now);
      CancelWaiting();
      Settle(skipped, now);
    }

    method Settle(skipped: bool, now: int)
      modifies this
      ensures State() == SettleCancel(old(State()), skipped, now)
    {
      hide Refresh;
      if !skipped && status == CancelRequested && !(exists p :: p in pages && pages[p].status == Rendering) {
        RefreshJobCounters();
        Finish(now);
      }
    }

    method ApplyDeadline(now: int)
      modifies this
      ensures State() == PastDeadline(old(State()), now)
    {
      if (status == Ingesting || status == Running || status == Assembling) && limits.deadline <= now {
        status, phaseLease, terminalCode := CancelRequested, None, DEADLINE;
      }
    }

    method CancelWaiting()
      modifies this
      ensures State() == CancelQueued(old(State()))
    {
      if status == CancelRequested {
        pages := map p | p in pages ::
          if pages[p].status == Queued then pages[p].(status := PageCancelled, code := USER_CANCELLED) else pages[p];
      }
    }

    method Finish(now: int)
      modifies this
      ensures var y := old(State());
        State() == y.(
          status := if y.succeeded > 0 then Running else if y.terminalCode == DEADLINE then Failed else Cancelled,
          phaseLease := None, phaseAttempts := 0, phaseAvailableAt := now,
          terminalCode := if y.terminalCode == DEADLINE then DEADLINE
                          else if y.succeeded > 0 then "CANCELLED_PARTIAL" else USER_CANCELLED)
    {
      var late := terminalCode == DEADLINE;
      status := if succeeded > 0 then Running else if late then Failed else Cancelled;
      phaseLease, phaseAttempts, phaseAvailableAt := None, 0, now;
      if !late {
        terminalCode := if succeeded > 0 then "CANCELLED_PARTIAL" else USER_CANCELLED;
      }
    }

    // -------------------------------------------------------------- phase leases

    /** Leases the ingestion under a new generation, if it is due and free. */
    method ClaimIngestion(owner: Id, now: int) returns (generation: Option<nat>)
      requires Valid()
      modifies this
      ensures Valid() && State() == C.ClaimIngestion(old(State()), owner, now)
      ensures generation.Some? ==> HoldsPhase(State(), owner, generation.value) && generation.value == old(phaseGeneration) + 1
      ensures generation.None? ==> State() == old(State())
    {
      hide CloneOk;
      PhaseKeeps(State(), owner, 0, now);
      if status != Ingesting || phaseAvailableAt > now || (phaseLease.Some? && phaseLease.value.expiresAt > now) {
        return None;
      }
      phaseLease := Some(Lease(owner, now + INGEST_LEASE));
      phaseGeneration := phaseGeneration + 1;
      generation := Some(phaseGeneration);
    }

    method ExtendPhaseLease(owner: Id, generation: nat, now: int) returns (ok: bool)
      requires Valid()
      modifies this
      ensures Valid() && State() == C.ExtendPhase(old(State()), owner, generation, now)
      ensures ok <==> HoldsPhase(old(State()), owner, generation) && (old(status) == Ingesting || old(status) == Assembling)
    {
      hide CloneOk;
      PhaseKeeps(State(), owner, generation, now);
      if phaseLease.None? || phaseLease.value.owner != owner || phaseGeneration != generation
         || (status != Ingesting && status != Assembling) {
        return false;
      }
      phaseLease := Some(Lease(owner, now + (if status == Assembling then ASSEMBLY_LEASE else INGEST_LEASE)));
      ok := true;
    }

    /** Ends the ingestion: the targets are frozen in number, and a job without any fails. */
    method FinishIngestion(owner: Id, generation: nat, now: int) returns (ok: bool)
      requires Valid()
      modifies this
      ensures Valid() && State() == C.FinishIngestion(old(State()), owner, generation, now)
      ensures ok <==> old(status) == Ingesting && HoldsPhase(old(State()), owner, generation)
    {
      hide CloneOk;
      FinishIngestionKeeps(State(), owner, generation, now);
      if status != Ingesting || phaseLease.None? || phaseLease.value.owner != owner || phaseGeneration != generation {
        return false;
      }
      phaseLease := None;
      if |pages| == 0 {
        status, terminalCode := Failed, "NO_CLONEABLE_PAGES";
      } else {
        status, phaseAttempts, phaseAvailableAt := Running, 0, now;
        discovered, ingested := |pages|, true;
      }
      ok := true;
    }

    /** Fails the job when every page of it has failed; otherwise leases its assembly, if it is due and free. */
    method ClaimAssembly(owner: Id, now: int) returns (generation: Option<nat>)
      requires Valid()
      modifies this
      ensures Valid() && State() == C.ClaimAssembly(FinalizeEmpty(old(State())), owner, now)
      ensures generation.Some? ==> status == Assembling && HoldsPhase(State(), owner, generation.value)
      ensures generation.None? ==> State() == FinalizeEmpty(old(State()))
    {
      hide CloneOk;
      EndKeeps(State());
      ClaimAssemblyKeeps(FinalizeEmpty(State()), owner, now);
      var settled := NothingOpen();
      if status == Running && ingested && succeeded == 0 && settled {
        status, terminalCode := Failed, "ALL_PAGES_FAILED";
      }
      if (status != Running && status != Assembling) || !ingested || phaseAvailableAt > now
         || succeeded <= 0 || !settled || (phaseLease.Some? && phaseLease.value.expiresAt > now) {
        return None;
      }
      status, phaseLease := Assembling, Some(Lease(owner, now + ASSEMBLY_LEASE));
      phaseGeneration := phaseGeneration + 1;
      generation := Some(phaseGeneration);
    }

    predicate NothingOpen()
      reads this
    {
      forall p :: p in pages ==> pages[p].status != Queued && pages[p].status != Rendering
    }

    /** Gives a phase back for another try, or fails the job after the third; staged artifacts may be collected at once. */
    method RetryPhase(owner: Id, generation: nat, phase: JobStatus, attempt: nat, code: string, retryAt: int, now: int)
      requires Valid() && (phase == Ingesting || phase == Assembling)
      modifies this
      ensures Valid() && State() == C.RetryPhase(old(State()), owner, generation, phase, attempt, code, retryAt, now)
    {
      hide CloneOk;
      RetryPhaseKeeps(State(), owner, generation, phase, attempt, code, retryAt, now);
      if status != phase || phaseLease.None? || phaseLease.value.owner != owner || phaseGeneration != generation {
        return;
      }
      phaseLease, terminalCode := None, code;
      if attempt >= MAX_PHASE_ATTEMPTS {
        status := Failed;
      } else {
        phaseAttempts, phaseAvailableAt := phaseAttempts + 1, retryAt;
      }
      artifacts := map k | k in artifacts ::
        if k.generation == generation && artifacts[k].state == Staged then artifacts[k].(deleteAfter := now) else artifacts[k];
    }

    /** A cancellation is taken unless the job has ended. */
    method AcceptCancellation() returns (applied: bool)
      requires Valid()
      modifies this
      ensures Valid() && State() == RequestCancel(old(State())) && (applied <==> !Terminal(old(status)))
    {
      hide CloneOk;
      RequestCancelKeeps(State());
      applied := !Terminal(status);
      if applied {
        status, phaseLease := CancelRequested, None;
      }
    }

    // ----------------------------------------------------------------- artifacts

    method TotalBytes(files: map<Part, nat>) returns (total: int)
      ensures total == Total(files, Size)
    {
      total := 0;
      var todo := files;
      while todo != map[]
        invariant total + Total(todo, Size) == Total(files, Size)
        decreases |todo|
      {
        var part :| part in todo;
        TotalRemove(todo, Size, part);
        total := total + todo[part];
        assert todo.Keys == (todo - {part}).Keys + {part};
        todo := todo - {part};
      }
    }

    predicate Assembles(owner: Id, generation: nat, now: int)
      reads this
    {
      && status == Assembling && phaseLease.Some? && phaseLease.value.owner == owner && phaseGeneration == generation
      && phaseLease.value.expiresAt > now
    }

    /** Inserts a row per file unless there is one, and insists that the generation then has exactly these files, all staged. */
    method StageArtifacts(owner: Id, generation: nat, files: map<Part, nat>, now: int) returns (ok: bool)
      requires Valid()
      modifies this
      ensures Valid() && State() == C.StageArtifacts(old(State()), owner, generation, files, now)
      ensures ok ==> StageMatches(artifacts, generation, files)
      ensures !ok ==> State() == old(State())
    {
      hide CloneOk;
      StageKeeps(State(), owner, generation, files, now);
      var total := TotalBytes(files);
      if files == map[] || !Assembles(owner, generation, now) || total > limits.maxArchiveBytes {
        return false;
      }
      var rows := InsertStaged(artifacts, generation, files, now);
      if !StageMatches(rows, generation, files) {
        return false;
      }
      artifacts := rows;
      ok := true;
    }

    method InsertStaged(before: map<ArtifactKey, Artifact>, generation: nat, files: map<Part, nat>, now: int)
      returns (rows: map<ArtifactKey, Artifact>)
      ensures rows == StagedRows(before, generation, files, now)
    {
      hide StagedRows;
      rows := before;
      var todo := files;
      assert files - todo.Keys == map[];
      StagedNone(before, generation, now);
      while todo != map[]
        invariant todo.Keys <= files.Keys && forall part :: part in todo ==> todo[part] == files[part]
        invariant rows == StagedRows(before, generation, files - todo.Keys, now)
        decreases |todo|
      {
        var part :| part in todo;
        ghost var done := files - todo.Keys;
        assert files - (todo - {part}).Keys == done[part := files[part]];
        StagedOne(before, generation, done, now, part, files[part]);
        var k := ArtifactKey(generation, part);
        if k !in rows {
          rows := rows[k := Artifact(Staged, todo[part], now + STAGING_LIFE)];
        }
        assert todo.Keys == (todo - {part}).Keys + {part};
        todo := todo - {part};
      }
      assert files - {} == files;
    }

    lemma StagedOne(before: map<ArtifactKey, Artifact>, generation: nat, done: map<Part, nat>, now: int, part: Part, bytes: nat)
      requires part !in done
      ensures var rows, k := StagedRows(before, generation, done, now), ArtifactKey(generation, part);
        StagedRows(before, generation, done[part := bytes], now)
        == if k in rows then rows else rows[k := Artifact(Staged, bytes, now + STAGING_LIFE)]
    {
      var rows, k := StagedRows(before, generation, done, now), ArtifactKey(generation, part);
      var more := StagedRows(before, generation, done[part := bytes], now);
      var expected := if k in rows then rows else rows[k := Artifact(Staged, bytes, now + STAGING_LIFE)];
      assert k in rows <==> k in before;
      forall m ensures m in more <==> m in expected {}
      forall m | m in more ensures more[m] == expected[m] {}
    }

    lemma StagedNone(before: map<ArtifactKey, Artifact>, generation: nat, now: int)
      ensures StagedRows(before, generation, map[], now) == before
    {}

    method GoLive(generation: nat, deleteAfter: int)
      modifies `artifacts
      ensures artifacts == map k | k in old(artifacts) ::
        if k.generation == generation && old(artifacts)[k].state == Staged
        then old(artifacts)[k].(state := Live, deleteAfter := deleteAfter) else old(artifacts)[k]
    {
      artifacts := map k | k in artifacts ::
        if k.generation == generation && artifacts[k].state == Staged
        then artifacts[k].(state := Live, deleteAfter := deleteAfter) else artifacts[k];
    }

    /** The job ends whole when nothing failed and nothing was cancelled. */
    method EndPublished(total: int, count: nat)
      modifies this
      ensures State() == old(State()).(
        status := if old(failed) > 0 || AnyCancelled(old(State())) then Partial else Published,
        phaseLease := None, archiveBytes := total, artifactCount := count)
    {
      var cancelled := exists p :: p in pages && pages[p].status == PageCancelled && pages[p].code == USER_CANCELLED;
      status := if failed > 0 || cancelled then Partial else Published;
      phaseLease, archiveBytes, artifactCount := None, total, count;
    }

    /** The second half of a publication: the staged rows of the generation go live and the job ends. */
    method PublishArtifacts(owner: Id, generation: nat, files: map<Part, nat>, now: int) returns (ok: bool)
      requires Valid()
      modifies this
      ensures Valid() && State() == C.PublishArtifacts(old(State()), owner, generation, files, now)
      ensures ok ==> status == Published || status == Partial
      ensures !ok ==> State() == old(State())
    {
      hide CloneOk;
      hide Total;
      PublishKeeps(State(), owner, generation, files, now);
      var total := TotalBytes(files);
      if files == map[] || !Assembles(owner, generation, now) || total > limits.maxArchiveBytes {
        return false;
      }
      GoLive(generation, now + limits.retention);
      EndPublished(total, |files|);
      ok := true;
    }

    // ---------------------------------------------------------------- collection

    lemma BundlesKeep(x: Job, p: Id, now: int)
      requires CloneOk(x)
      ensures CloneOk(C.ClaimBundle(x, p, now)) && CloneOk(CompleteBundle(x, p, now)) && CloneOk(RetryBundle(x, p, now))
    {
      hide CloneOk, C.ClaimBundle, CompleteBundle, RetryBundle;
      BundleStepKeeps(x, ClaimBundleStep(p), now);
      BundleStepKeeps(x, CompleteBundleStep(p), now);
      BundleStepKeeps(x, RetryBundleStep(p), now);
    }

    predicate Due(k: ArtifactKey, now: int)
      reads this
    {
      k in artifacts && artifacts[k].state != Deleted && artifacts[k].deleteAfter <= now
    }

    /** Claims a due artifact or, when there is none, a due bundle of an ended job. */
    method ClaimObjectForDeletion(now: int) returns (claimed: Option<Claim>)
      requires Valid()
      modifies this
      ensures Valid()
      ensures claimed.Some? && claimed.value.OfArtifact? ==>
        && claimed.value.artifact in old(artifacts) && old(artifacts)[claimed.value.artifact].state != Deleted
        && old(artifacts)[claimed.value.artifact].deleteAfter <= now
        && State() == C.ClaimArtifact(old(State()), claimed.value.artifact, now)
      ensures claimed.Some? && claimed.value.OfBundle? ==>
        BundleClaimable(old(State()), claimed.value.page, now) && State() == C.ClaimBundle(old(State()), claimed.value.page, now)
      ensures claimed.None? ==> State() == old(State())
      ensures claimed.None? || claimed.value.OfBundle? ==> forall k :: C.ClaimArtifact(old(State()), k, now) == old(State())
      ensures claimed.None? ==> forall p :: !BundleClaimable(State(), p, now)
    {
      hide CloneOk;
      if k :| k in artifacts && Due(k, now) {
        CollectKeeps(State(), k, now);
        artifacts := artifacts[k := artifacts[k].(
          state := if artifacts[k].state == Staged then Staged else DeletePending, deleteAfter := now + CLAIM_HOLD)];
        return Some(OfArtifact(k));
      }
      if p :| p in pages && Terminal(status) && pages[p].status == Succeeded
              && (pages[p].bundle == Available || pages[p].bundle == BundlePending) && pages[p].bundleDeleteAfter <= now {
        BundlesKeep(State(), p, now);
        pages := pages[p := pages[p].(bundle := BundlePending, bundleDeleteAfter := now + CLAIM_HOLD)];
        return Some(OfBundle(p));
      }
      claimed := None;
    }

    /** The row follows its object; the last artifact takes the job with it. */
    method CompleteObjectDeletion(claim: Claim, now: int)
      requires Valid()
      modifies this
      ensures Valid()
      ensures State() == match claim
        case OfArtifact(k) => CompleteArtifact(old(State()), k)
        case OfBundle(p) => CompleteBundle(old(State()), p, now)
    {
      hide CloneOk;
      match claim
      case OfArtifact(k) =>
        CompleteArtifactKeeps(State(), k);
        if k in artifacts && (artifacts[k].state == Staged || artifacts[k].state == DeletePending) {
          artifacts := artifacts[k := artifacts[k].(state := Deleted)];
          var remaining := exists m :: m in artifacts && (artifacts[m].state == Live || artifacts[m].state == DeletePending);
          if !remaining && (status == Published || status == Partial) {
            status := Expired;
          }
        }
      case OfBundle(p) =>
        BundlesKeep(State(), p, now);
        if p in pages && pages[p].bundle == BundlePending {
          pages := pages[p := pages[p].(bundle := BundleDeleted, bundleDeleteAfter := now)];
        }
    }

    method RetryObjectDeletion(claim: Claim, now: int)
      requires Valid()
      modifies this
      ensures Valid()
      ensures State() == match claim
        case OfArtifact(k) => RetryArtifact(old(State()), k, now)
        case OfBundle(p) => RetryBundle(old(State()), p, now)
    {
      hide CloneOk;
      match claim
      case OfArtifact(k) =>
        CollectKeeps(State(), k, now);
        if k in artifacts && (artifacts[k].state == Staged || artifacts[k].state == DeletePending) {
          artifacts := artifacts[k := artifacts[k].(deleteAfter := now + RETRY_HOLD)];
        }
      case OfBundle(p) =>
        BundlesKeep(State(), p, now);
        if p in pages && pages[p].bundle == BundlePending {
          pages := pages[p := pages[p].(bundleDeleteAfter := now + RETRY_HOLD)];
        }
    }
  }
}
