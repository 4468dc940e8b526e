/** What a transaction may do to a capture job and to an artifact row. */
module VaultMoves {
  import opened Common
  import opened CloneVault

  /** A capture is tried three times; its clone follows it and ends with it. */
  predicate CaptureMoves(a: Job, b: Job, now: int) {
    match (a.capture, b.capture)
    case (CaptureQueued, CaptureQueued) => b == a.(clone := b.clone) && CloneMoves(a.clone, b.clone)
    case (CaptureQueued, Rendering) =>
      && a.attempts < 3 && b.attempts == a.attempts + 1 && b.generation == a.generation + 1 && b.leaseUntil == now + 45_000
      && if CloneOpen(a.clone) then b.clone == CloneRunning && b.cloneGeneration == b.generation
         else b.clone == a.clone && b.cloneGeneration == a.cloneGeneration
    case (Rendering, Rendering) => b == a.(leaseUntil := b.leaseUntil, clone := b.clone) && CloneMoves(a.clone, b.clone)
                                   && (b.leaseUntil == a.leaseUntil || b.leaseUntil == now + 45_000)
    case (Rendering, CaptureQueued) => a.attempts < 3 && b == a.(capture := CaptureQueued)
    case (Rendering, CaptureFailed) => a.attempts >= 3 && b == a.(capture := CaptureFailed, clone := if CloneOpen(a.clone) then CloneFailed else a.clone)
    case (Rendering, Persisting) => b == a.(capture := Persisting, clone := b.clone)
                                    && (b.clone == a.clone || (a.clone == CloneRunning && !CloneOpen(b.clone) && b.clone != CloneExpired))
    case (Persisting, Persisting) => b == a.(clone := b.clone) && CloneMoves(a.clone, b.clone)
    case (CaptureFailed, CaptureFailed) => b == a.(clone := b.clone) && CloneMoves(a.clone, b.clone)
    case _ => false
  }

  /** Without its capture a clone only expires. */
  predicate CloneMoves(a: CloneStatus, b: CloneStatus) {
    b == a || (Served(a) && b == CloneExpired)
  }

  /** What one transaction may do to one row. */
  predicate ArtifactMoves(a: Artifact, b: Artifact, now: int) {
    || b == a
    || (a.state == Staged && b == Artifact(Published, b.deleteAfter, a.claimed)
        && b.deleteAfter <= now + 604_800_000 && a.deleteAfter - 300_000 > b.deleteAfter - 604_800_000)
    || (a.state != Deleted && a.deleteAfter <= now && b == Artifact(if a.state == Staged then Staged else DeletePending, now + 30_000, true))
    || (a.claimed && (a.state == Staged || a.state == DeletePending) && (b == a.(state := Deleted) || b == a.(deleteAfter := now + 60_000)))
  }

  lemma JobStep(v: Vault, action: Action, job: Id)
    requires job in v.jobs
    ensures job in Act(v, action).jobs && CaptureMoves(v.jobs[job], Act(v, action).jobs[job], v.clock)
  {}

  /** The worker that leased the capture gives it up, or stores its result. */
  predicate ByHolder(action: Action, job: Id, j: Job) {
    match action
    case Extending(id, worker, generation) => id == job && worker == j.worker && generation == j.generation
    case Failing(id, worker, generation) => id == job && worker == j.worker && generation == j.generation
    case Storing(id, worker, generation, _, _) => id == job && worker == j.worker && generation == j.generation
    case _ => false
  }

  /** While its lease runs, a capture is left to the worker and generation that hold it. */
  lemma HeldCaptureStays(v: Vault, action: Action, job: Id)
    requires job in v.jobs && v.jobs[job].capture == Rendering && v.jobs[job].leaseUntil > v.clock && !ByHolder(action, job, v.jobs[job])
    ensures job in Act(v, action).jobs
    ensures var b := Act(v, action).jobs[job]; b == v.jobs[job].(clone := b.clone)
  {}

  lemma NewJob(v: Vault, action: Action, job: Id)
    requires job !in v.jobs && job in Act(v, action).jobs
    ensures Act(v, action).jobs[job] == Job(CaptureQueued, 0, 0, 0, 0, CloneQueued, 0)
  {}

  lemma RowStep(v: Vault, action: Action, k: Key, lag: nat)
    requires k in v.artifacts && Timely(action, v.clock, lag)
    ensures k in Act(v, action).artifacts && ArtifactMoves(v.artifacts[k], Act(v, action).artifacts[k], v.clock)
  {
    InPair(k);
  }

  lemma NewRow(v: Vault, action: Action, k: Key)
    requires k !in v.artifacts && k in Act(v, action).artifacts
    ensures Act(v, action).artifacts[k] == Artifact(Staged, v.clock + 3_600_000, false) && k in v.objects
    ensures k.job in v.jobs && v.jobs[k.job].capture == Rendering && v.jobs[k.job].generation == k.generation == v.jobs[k.job].cloneGeneration
  {
    if action.Staging? {
      InPair(k);
    }
  }

  /** A job that has failed was tried three times. */
  predicate Tried(v: Vault) {
    forall job :: job in v.jobs ==> v.jobs[job].attempts <= 3 && (v.jobs[job].capture == CaptureFailed ==> v.jobs[job].attempts == 3)
  }

  lemma TriedStep(v: Vault, action: Action, now: int)
    requires Tried(v)
    ensures Tried(Act(v.(clock := now), action))
  {
    var u := v.(clock := now);
    forall job | job in Act(u, action).jobs
      ensures Act(u, action).jobs[job].attempts <= 3 && (Act(u, action).jobs[job].capture == CaptureFailed ==> Act(u, action).jobs[job].attempts == 3)
    {
      if job in u.jobs {
        JobStep(u, action, job);
      } else {
        NewJob(u, action, job);
      }
      hide Act;
    }
  }

  /** In every reachable state, with any delay of publications, a capture has failed only after its third attempt. */
  lemma {:induction false} FailedIsSpent(run: seq<Vault>, lag: nat)
    requires IsVaultRun(run, lag)
    ensures Tried(Now(run))
  {
    hide Act, Tried;
    if |run| > 1 {
      var init := run[..|run| - 1];
      forall i | 0 < i < |init| ensures StepsAt(init, i, lag) {
        assert StepsAt(run, i, lag);
      }
      FailedIsSpent(init, lag);
      assert StepsAt(run, |run| - 1, lag);
      var action, now :| Now(init).clock <= now && Timely(action, now, lag) && Now(run) == Act(Now(init).(clock := now), action);
      TriedStep(Now(init), action, now);
    } else {
      NoneTried(run[0]);
    }
  }

  lemma NoneTried(v: Vault)
    requires v.jobs == map[]
    ensures Tried(v)
  {}

  /** Over whole runs: captures are leased, given up and tried again by these rules alone, and artifact rows live by theirs. */
  lemma VaultsMove(run: seq<Vault>, lag: nat, action: Action, now: int, job: Id, k: Key)
    requires IsVaultRun(run, lag) && Now(run).clock <= now && Timely(action, now, lag)
    ensures var v, w := Now(run).(clock := now), Act(Now(run).(clock := now), action);
      && (job in v.jobs ==> job in w.jobs && CaptureMoves(v.jobs[job], w.jobs[job], now))
      && (k in v.artifacts ==> k in w.artifacts && ArtifactMoves(v.artifacts[k], w.artifacts[k], now))
  {
    var v := Now(run).(clock := now);
    hide IsVaultRun, Act, CaptureMoves, ArtifactMoves;
    if job in v.jobs {
      JobStep(v, action, job);
    }
    if k in v.artifacts {
      RowStep(v, action, k, lag);
    }
  }

  /** With its object gone a claimed row is deleted; an archive takes the clone of a served job with it, a manifest leaves all jobs. */
  lemma DeletionDecides(v: Vault, k: Key)
    requires k in v.artifacts && v.artifacts[k].claimed && (v.artifacts[k].state == Staged || v.artifacts[k].state == DeletePending)
    ensures var w := Act(v, Completing(k));
      && w.artifacts == v.artifacts[k := Artifact(Deleted, v.artifacts[k].deleteAfter, true)] && w.objects == v.objects
      && if k.kind == StaticArchive && k.job in v.jobs && (v.jobs[k.job].clone == ClonePublished || v.jobs[k.job].clone == ClonePartial)
         then w.jobs == v.jobs[k.job := v.jobs[k.job].(clone := CloneExpired)] else w.jobs == v.jobs
  {}

  // ----------------------------------------------------------- one publication

  /** Row `k` may be published by a transaction that began at `started`. */
  predicate InTime(v: Vault, k: Key, started: int) {
    k in v.artifacts && v.artifacts[k].state == Staged && v.artifacts[k].deleteAfter - started > 300_000
  }

  /**
   * The result of a running clone is published exactly if it was built and both
   * of its rows are staged with more than five minutes left; its clone has
   * failed otherwise. The capture is stored in either case.
   */
  lemma PublicationDecides(v: Vault, job: Id, worker: Id, generation: nat, build: BuildStatus, started: int)
    requires HoldsJob(v, job, worker, generation) && v.jobs[job].clone == CloneRunning && v.jobs[job].cloneGeneration == generation
    ensures var w := Act(v, Storing(job, worker, generation, build, started));
      var archive, manifest := Key(job, generation, StaticArchive), Key(job, generation, Manifest);
      && job in w.jobs && w.jobs[job].capture == Persisting && w.artifacts.Keys == v.artifacts.Keys
      && if build != BuildFailed && InTime(v, archive, started) && InTime(v, manifest, started)
         then w.jobs[job].clone == (if build == BuildPublished then ClonePublished else ClonePartial)
              && w.artifacts[archive].state == w.artifacts[manifest].state == Published
              && w.artifacts[archive].deleteAfter == w.artifacts[manifest].deleteAfter == started + 604_800_000
         else w.jobs[job].clone == CloneFailed && w.artifacts == v.artifacts
  {
    var archive, manifest := Key(job, generation, StaticArchive), Key(job, generation, Manifest);
    assert archive in Pair(job, generation) && manifest in Pair(job, generation);
    assert Publishable(v.artifacts, job, generation, started) <==> InTime(v, archive, started) && InTime(v, manifest, started);
  }
}
