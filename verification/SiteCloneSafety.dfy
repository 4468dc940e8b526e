/** What holds over every run of a site-clone job. */
module SiteCloneSafety {
  import opened Common
  import opened SiteClone
  import opened SiteCloneInvariant

  /** The counters kept by increments are the counts of the rows; budget, concurrency and retries are respected. */
  lemma CountersRefineRecount(run: seq<Job>)
    requires IsCloneRun(run)
    ensures var x := Latest(run);
      && x.succeeded == Total(x.pages, IsSucceeded) && x.failed == Total(x.pages, IsFailed)
      && x.processed == x.succeeded + x.failed
      && x.inputBytes == Total(x.pages, SucceededBytes) <= x.limits.maxInputBytes
      && Total(x.pages, IsRendering) <= x.limits.pageConcurrency
      && |x.pages| <= x.limits.maxPages
    ensures forall p :: p in Latest(run).pages ==> Latest(run).pages[p].attempts <= Latest(run).limits.maxRetries
  {
    var x := Latest(run);
    CloneRunOk(run);
    hide IsCloneRun, StatusOk, ArtifactsOk, Total;
    forall p | p in x.pages ensures x.pages[p].attempts <= x.limits.maxRetries {
      assert PageOk(x.pages[p], x.limits, x.status, x.ingested);
    }
  }

  predicate EveryTargetSucceeded(x: Job) {
    forall p :: p in x.pages && !x.pages[p].rejected ==> x.pages[p].status == Succeeded
  }

  /** A job is published whole only if every target it did not reject succeeded; otherwise it is partial. */
  lemma PublishedMeansComplete(run: seq<Job>)
    requires IsCloneRun(run)
    ensures Latest(run).status == Published ==> EveryTargetSucceeded(Latest(run))
    ensures Latest(run).status == Partial ==> !EveryTargetSucceeded(Latest(run))
  {
    var x := Latest(run);
    CloneRunOk(run);
    hide IsCloneRun, ArtifactsOk, Total;
    if x.status == Published {
      forall p | p in x.pages && !x.pages[p].rejected ensures x.pages[p].status == Succeeded {
        assert PageOk(x.pages[p], x.limits, x.status, x.ingested);
        CountedPage(x, p);
        assert !AnyCancelled(x);
      }
    }
    if x.status == Partial && EveryTargetSucceeded(x) && x.failed > 0 {
      forall p | p in x.pages ensures IsFailed(x.pages[p]) == 0 {
        assert PageOk(x.pages[p], x.limits, x.status, x.ingested);
      }
      NoneWithWeight(x.pages, IsFailed);
    }
  }

  // ------------------------------------------------------------ frozen input

  ghost predicate Settled(x: Job) {
    NoOpenPages(x) && x.ingested && x.status != Ingesting
  }

  ghost predicate Frozen(x: Job, y: Job) {
    !Terminal(y.status) ==> y.pages == x.pages && Settled(y)
  }

  lemma PageStepsFrozen(x: Job, step: Step, now: int)
    requires CloneOk(x) && Settled(x)
    requires step.ClaimPageStep? || step.ExtendPageStep? || step.CompletePageStep? || step.FailPageStep?
    ensures Apply(x, step, now) == x
  {
    hide Refresh, CloneOk, Total;
  }

  lemma BundleStepsFrozen(x: Job, step: Step, now: int)
    requires CloneOk(x) && Settled(x)
    requires step.ClaimBundleStep? || step.CompleteBundleStep? || step.RetryBundleStep?
    ensures Frozen(x, Apply(x, step, now))
  {
    if step.page in x.pages {
      assert PageOk(x.pages[step.page], x.limits, x.status, x.ingested);
    }
    hide CloneOk;
  }

  lemma ReconcileFrozen(x: Job, skipped: bool, now: int)
    requires Settled(x)
    ensures Frozen(x, Reconcile(x, skipped, now))
  {
    var a := PastDeadline(x, now);
    assert CancelQueued(a).pages == x.pages;
    hide Total;
  }

  lemma FrozenStep(x: Job, step: Step, now: int)
    requires CloneOk(x) && Settled(x)
    ensures Frozen(x, Apply(x, step, now))
  {
    hide Reconcile, Total, Refresh;
    match step
    case ClaimPageStep(_, _, _) => PageStepsFrozen(x, step, now);
    case ExtendPageStep(_, _, _) => PageStepsFrozen(x, step, now);
    case CompletePageStep(_, _, _, _) => PageStepsFrozen(x, step, now);
    case FailPageStep(_, _, _, _, _) => PageStepsFrozen(x, step, now);
    case ReconcileStep(skipped) => ReconcileFrozen(x, skipped, now);
    case ClaimBundleStep(_) => BundleStepsFrozen(x, step, now);
    case CompleteBundleStep(_) => BundleStepsFrozen(x, step, now);
    case RetryBundleStep(_) => BundleStepsFrozen(x, step, now);
    case _ => OtherStepsFrozen(x, step, now);
  }

  lemma OtherStepsFrozen(x: Job, step: Step, now: int)
    requires Settled(x)
    requires step.ClaimIngestionStep? || step.ExtendPhaseStep? || step.AddTargetsStep? || step.FinishIngestionStep? || step.FinalizeEmptyStep?
          || step.ClaimAssemblyStep? || step.StageStep? || step.PublishStep? || step.RetryPhaseStep? || step.CancelStep?
          || step.ClaimArtifactStep? || step.CompleteArtifactStep? || step.RetryArtifactStep?
    ensures Frozen(x, Apply(x, step, now))
  {
    hide Total, InsertTargets, StagedRows, StageMatches, AnyCancelled, Remaining;
  }

  // ------------------------------------------------------------- terminal jobs

  predicate EndsAs(a: JobStatus, b: JobStatus) {
    b == a || (b == Expired && (a == Published || a == Partial))
  }

  ghost predicate Over(x: Job, y: Job) {
    Terminal(y.status) && EndsAs(x.status, y.status) && y.phaseGeneration == x.phaseGeneration
  }

  lemma TerminalStep(x: Job, step: Step, now: int)
    requires CloneOk(x) && Terminal(x.status)
    ensures Over(x, Apply(x, step, now))
  {
    hide CloneOk, Total, InsertTargets, Remaining, AnyCancelled, StageMatches, StagedRows, NoOpenPages, Refresh;
    if step.CompletePageStep? || step.FailPageStep? || step.ClaimPageStep? || step.ExtendPageStep? {
      TerminalPageStep(x, step, now);
    } else {
      TerminalUnleased(x);
    }
  }

  lemma TerminalUnleased(x: Job)
    requires CloneOk(x) && Terminal(x.status)
    ensures x.phaseLease.None?
  {
    hide PagesOk, CountersOk, ArtifactsOk;
  }

  lemma TerminalPageStep(x: Job, step: Step, now: int)
    requires CloneOk(x) && Terminal(x.status)
    requires step.CompletePageStep? || step.FailPageStep? || step.ClaimPageStep? || step.ExtendPageStep?
    ensures Over(x, Apply(x, step, now))
  {
    hide CloneOk, Total;
  }

  // ------------------------------------------------------------- whole runs

  lemma RunStepAt(run: seq<Job>, j: nat) returns (step: Step, now: int)
    requires IsCloneRun(run) && 0 < j < |run|
    ensures CloneOk(run[j - 1]) && run[j] == Apply(run[j - 1], step, now)
  {
    hide CloneOk, Apply, ValidLimits;
    CloneRunOkAt(run, j - 1);
    assert NextAt(run, j);
    step, now :| run[j] == Apply(run[j - 1], step, now);
  }

  lemma {:induction false} EndedStaysEnded(run: seq<Job>, i: nat, j: nat)
    requires IsCloneRun(run) && i <= j < |run| && Terminal(run[i].status)
    ensures Over(run[i], run[j])
    decreases j
  {
    if i < j {
      EndedStaysEnded(run, i, j - 1);
      var step, now := RunStepAt(run, j);
      TerminalStep(run[j - 1], step, now);
      hide IsCloneRun, CloneOk, Apply;
    }
  }

  /** From the moment a job is assembled until it ends, the pages it is assembled from never change. */
  lemma {:induction false} AssemblyInputFrozen(run: seq<Job>, i: nat, j: nat)
    requires IsCloneRun(run) && i <= j < |run| && run[i].status == Assembling && !Terminal(run[j].status)
    ensures run[j].pages == run[i].pages && Settled(run[j])
    decreases j
  {
    if i < j {
      if Terminal(run[j - 1].status) {
        EndedStaysEnded(run, j - 1, j);
        assert false;
      }
      AssemblyInputFrozen(run, i, j - 1);
      var step, now := RunStepAt(run, j);
      FrozenStep(run[j - 1], step, now);
      hide IsCloneRun, CloneOk, Apply;
    } else {
      CloneRunOkAt(run, i);
    }
  }

  /** While a job is assembled every page it reads succeeded or is left out, and no bundle is being deleted. */
  lemma BundlesKept(run: seq<Job>, p: Id)
    requires IsCloneRun(run) && !Terminal(Latest(run).status) && p in Latest(run).pages
    ensures Latest(run).pages[p].status == Succeeded <==> Latest(run).pages[p].bundle == Available
  {
    var x := Latest(run);
    CloneRunOk(run);
    hide IsCloneRun;
    assert PageOk(x.pages[p], x.limits, x.status, x.ingested);
  }

  /** Across a whole run at most one generation of artifacts is ever live. */
  lemma OneGenerationLive(run: seq<Job>, i: nat, j: nat, k: ArtifactKey, m: ArtifactKey)
    requires IsCloneRun(run) && i <= j < |run|
    requires k in run[i].artifacts && run[i].artifacts[k].state == Live
    requires m in run[j].artifacts && run[j].artifacts[m].state == Live
    ensures k.generation == m.generation
  {
    CloneRunOkAt(run, i);
    CloneRunOkAt(run, j);
    assert Terminal(run[i].status) && k.generation == run[i].phaseGeneration && m.generation == run[j].phaseGeneration;
    hide CloneOk, IsCloneRun;
    EndedStaysEnded(run, i, j);
  }

  /** A job reads EXPIRED only when nothing of it is live or waiting to be deleted. */
  lemma ExpiredMeansGone(run: seq<Job>)
    requires IsCloneRun(run) && Latest(run).status == Expired
    ensures !Remaining(Latest(run).artifacts)
  {
    CloneRunOk(run);
    hide IsCloneRun, PagesOk, CountersOk, StatusOk;
  }
}
