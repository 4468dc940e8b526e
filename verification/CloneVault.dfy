/**
 * Static clone artifacts: staged after upload, published with the capture's
 * result, collected when they expire. Publication and collection are kept
 * apart by time bounds alone. Times are milliseconds.
 */
module CloneVault {
  import opened Common

  const CLAIM_HOLD := 30_000
  const RETRY_HOLD := 60_000
  const PUBLISH_MARGIN := 300_000
  const STAGING_LIFE := 3_600_000
  const PUBLISHED_LIFE := 604_800_000
  const LEASE := 45_000

  datatype Kind = StaticArchive | Manifest

  /** Names a row by its unique job, generation and kind; the storage key follows from them. */
  datatype Key = Key(job: Id, generation: nat, kind: Kind)

  datatype ArtifactState = Staged | Published | DeletePending | Deleted

  /** A row of reconstruction_artifacts. `claimed` records that a collector ever claimed it. */
  datatype Artifact = Artifact(state: ArtifactState, deleteAfter: int, claimed: bool)

  datatype CaptureStatus = CaptureQueued | Rendering | Persisting | CaptureFailed

  datatype CloneStatus = CloneQueued | CloneRunning | ClonePublished | ClonePartial | CloneFailed | CloneExpired

  /** A capture job with its reconstruction job. */
  datatype Job = Job(
    capture: CaptureStatus, worker: Id, generation: nat, leaseUntil: int, attempts: nat,
    clone: CloneStatus, cloneGeneration: nat)

  /** `staging` and `dropped` say how far the worker of a generation has come with its uploads. */
  datatype Vault = Vault(
    clock: int, jobs: map<Id, Job>, artifacts: map<Key, Artifact>, objects: set<Key>,
    staging: set<(Id, nat)>, dropped: set<(Id, nat)>)

  datatype BuildStatus = BuildPublished | BuildPartial | BuildFailed

  function Pair(job: Id, generation: nat): set<Key> {
    {Key(job, generation, StaticArchive), Key(job, generation, Manifest)}
  }

  predicate HoldsJob(v: Vault, job: Id, worker: Id, generation: nat) {
    && job in v.jobs
    && v.jobs[job].capture == Rendering && v.jobs[job].worker == worker && v.jobs[job].generation == generation
  }

  predicate CloneOpen(status: CloneStatus) {
    status == CloneQueued || status == CloneRunning
  }

  predicate Served(status: CloneStatus) {
    status == ClonePublished || status == ClonePartial
  }

  // ------------------------------------------------------------ capture jobs

  function AcceptJob(v: Vault, job: Id): Vault {
    if job in v.jobs then v
    else v.(jobs := v.jobs[job := Job(CaptureQueued, 0, 0, 0, 0, CloneQueued, 0)])
  }

  /** claimJob, expired leases: requeued, or failed together with the clone after three attempts. */
  function ExpireJob(v: Vault, job: Id): Vault {
    if job !in v.jobs || v.jobs[job].capture != Rendering || v.jobs[job].leaseUntil > v.clock then v
    else
      var j := v.jobs[job];
      if j.attempts >= 3 then
        v.(jobs := v.jobs[job := j.(capture := CaptureFailed, clone := if CloneOpen(j.clone) then CloneFailed else j.clone)])
      else v.(jobs := v.jobs[job := j.(capture := CaptureQueued)])
  }

  function ClaimJob(v: Vault, job: Id, worker: Id): Vault {
    if job !in v.jobs || v.jobs[job].capture != CaptureQueued || v.jobs[job].attempts >= 3 then v
    else
      var j := v.jobs[job];
      var claimed := j.(capture := Rendering, worker := worker, generation := j.generation + 1,
                        leaseUntil := v.clock + LEASE, attempts := j.attempts + 1);
      v.(jobs := v.jobs[job :=
        if CloneOpen(j.clone) then claimed.(clone := CloneRunning, cloneGeneration := j.generation + 1) else claimed])
  }

  function ExtendJob(v: Vault, job: Id, worker: Id, generation: nat): Vault {
    if !HoldsJob(v, job, worker, generation) then v
    else v.(jobs := v.jobs[job := v.jobs[job].(leaseUntil := v.clock + LEASE)])
  }

  function FailJob(v: Vault, job: Id, worker: Id, generation: nat): Vault {
    if !HoldsJob(v, job, worker, generation) then v
    else
      var j := v.jobs[job];
      if j.attempts < 3 then v.(jobs := v.jobs[job := j.(capture := CaptureQueued)])
      else v.(jobs := v.jobs[job := j.(capture := CaptureFailed, clone := if CloneOpen(j.clone) then CloneFailed else j.clone)])
  }

  // ---------------------------------------------------- upload and publication

  /** The worker of a generation uploads before it stages. */
  function Upload(v: Vault, k: Key): Vault {
    if k.job !in v.jobs || k.generation > v.jobs[k.job].generation
       || (k.job, k.generation) in v.staging || (k.job, k.generation) in v.dropped then v
    else v.(objects := v.objects + {k})
  }

  /** An upload that failed before staging started is removed again, and never staged. */
  function Discard(v: Vault, job: Id, generation: nat): Vault {
    if (job, generation) in v.staging then v
    else v.(objects := v.objects - Pair(job, generation), dropped := v.dropped + {(job, generation)})
  }

  /** stageReconstructionArtifacts, called once per generation with both objects uploaded. */
  function Stage(v: Vault, job: Id, worker: Id, generation: nat): Vault {
    if (job, generation) in v.staging || (job, generation) in v.dropped || !(Pair(job, generation) <= v.objects) then v
    else
      var started := v.(staging := v.staging + {(job, generation)});
      if !HoldsJob(v, job, worker, generation) || v.jobs[job].clone != CloneRunning
         || v.jobs[job].cloneGeneration != generation || !(Pair(job, generation) !! v.artifacts.Keys) then started
      else
        var row := Artifact(Staged, v.clock + STAGING_LIFE, false);
        started.(artifacts := v.artifacts[Key(job, generation, StaticArchive) := row][Key(job, generation, Manifest) := row])
  }

  /** The publication query: both staged rows of the generation, with more than five minutes left at `started`. */
  predicate Publishable(artifacts: map<Key, Artifact>, job: Id, generation: nat, started: int) {
    forall k :: k in Pair(job, generation) ==>
      k in artifacts && artifacts[k].state == Staged && artifacts[k].deleteAfter > started + PUBLISH_MARGIN
  }

  function PublishRow(k: Key, a: Artifact, job: Id, generation: nat, started: int): Artifact {
    if k.job == job && k.generation == generation && a.state == Staged
    then a.(state := Published, deleteAfter := started + PUBLISHED_LIFE) else a
  }

  /**
   * stageResult: the capture result is stored, and the staged clone published
   * with it. `started` is the transaction's own clock, which stands still
   * while the transaction waits for its locks.
   */
  function StageResult(v: Vault, job: Id, worker: Id, generation: nat, build: BuildStatus, started: int): Vault {
    if !HoldsJob(v, job, worker, generation) then v
    else
      var j := v.jobs[job];
      var stored := j.(capture := Persisting);
      if j.clone != CloneRunning || j.cloneGeneration != generation then v.(jobs := v.jobs[job := stored])
      else if build == BuildFailed || !Publishable(v.artifacts, job, generation, started) then
        v.(jobs := v.jobs[job := stored.(clone := CloneFailed)])
      else
        v.(artifacts := map k | k in v.artifacts :: PublishRow(k, v.artifacts[k], job, generation, started),
           jobs := v.jobs[job := stored.(clone := if build == BuildPublished then ClonePublished else ClonePartial)])
  }

  // --------------------------------------------------------------- collection

  function ClaimArtifact(v: Vault, k: Key): Vault {
    if k !in v.artifacts || v.artifacts[k].state == Deleted || v.artifacts[k].deleteAfter > v.clock then v
    else
      var a := v.artifacts[k];
      v.(artifacts := v.artifacts[k := Artifact(
        if a.state == Staged then Staged else DeletePending, v.clock + CLAIM_HOLD, true)])
  }

  /** A collector deletes the object of a row it claimed, at any time after its claim. */
  function DeleteObject(v: Vault, k: Key): Vault {
    if k in v.artifacts && v.artifacts[k].claimed then v.(objects := v.objects - {k}) else v
  }

  /** Deleting the archive row of any generation expires the job. */
  function CompleteDeletion(v: Vault, k: Key): Vault {
    if k !in v.artifacts || !v.artifacts[k].claimed
       || (v.artifacts[k].state != Staged && v.artifacts[k].state != DeletePending) then v
    else
      var deleted := v.(artifacts := v.artifacts[k := v.artifacts[k].(state := Deleted)]);
      if k.kind == StaticArchive && k.job in v.jobs && Served(v.jobs[k.job].clone)
      then deleted.(jobs := v.jobs[k.job := v.jobs[k.job].(clone := CloneExpired)])
      else deleted
  }

  function RetryDeletion(v: Vault, k: Key): Vault {
    if k !in v.artifacts || !v.artifacts[k].claimed
       || (v.artifacts[k].state != Staged && v.artifacts[k].state != DeletePending) then v
    else v.(artifacts := v.artifacts[k := v.artifacts[k].(deleteAfter := v.clock + RETRY_HOLD)])
  }

  // -------------------------------------------------------------------- runs

  datatype Action =
    | Accepting(job: Id) | Expiring(job: Id) | Claiming(job: Id, worker: Id)
    | Extending(job: Id, worker: Id, generation: nat) | Failing(job: Id, worker: Id, generation: nat)
    | Uploading(k: Key) | Discarding(job: Id, generation: nat) | Staging(job: Id, worker: Id, generation: nat)
    | Storing(job: Id, worker: Id, generation: nat, build: BuildStatus, started: int)
    | Collecting(k: Key) | Deleting(k: Key) | Completing(k: Key) | Retrying(k: Key)

  function Act(v: Vault, action: Action): Vault {
    match action
    case Accepting(job) => AcceptJob(v, job)
    case Expiring(job) => ExpireJob(v, job)
    case Claiming(job, worker) => ClaimJob(v, job, worker)
    case Extending(job, worker, generation) => ExtendJob(v, job, worker, generation)
    case Failing(job, worker, generation) => FailJob(v, job, worker, generation)
    case Uploading(k) => Upload(v, k)
    case Discarding(job, generation) => Discard(v, job, generation)
    case Staging(job, worker, generation) => Stage(v, job, worker, generation)
    case Storing(job, worker, generation, build, started) => StageResult(v, job, worker, generation, build, started)
    case Collecting(k) => ClaimArtifact(v, k)
    case Deleting(k) => DeleteObject(v, k)
    case Completing(k) => CompleteDeletion(v, k)
    case Retrying(k) => RetryDeletion(v, k)
  }

  /** One transaction at time `now`; a publication that waited for locks began at most `lag` before. */
  ghost predicate Steps(v: Vault, w: Vault, lag: nat) {
    exists action, now :: v.clock <= now && Timely(action, now, lag) && w == Act(v.(clock := now), action)
  }

  predicate Timely(action: Action, now: int, lag: nat) {
    action.Storing? ==> now - lag <= action.started <= now
  }

  ghost predicate StepsAt(run: seq<Vault>, i: nat, lag: nat)
    requires 0 < i < |run|
  {
    Steps(run[i - 1], run[i], lag)
  }

  ghost predicate IsVaultRun(run: seq<Vault>, lag: nat) {
    && |run| > 0 && run[0] == Vault(run[0].clock, map[], map[], {}, {}, {})
    && forall i {:trigger StepsAt(run, i, lag)} :: 0 < i < |run| ==> StepsAt(run, i, lag)
  }

  ghost function Now(run: seq<Vault>): Vault
    requires |run| > 0
  {
    run[|run| - 1]
  }

  // --------------------------------------------------------------- invariant

  /** A publication this late can still not meet a claimed row. */
  const SAFE_LAG := PUBLISH_MARGIN - RETRY_HOLD

  ghost predicate RowOk(v: Vault, k: Key) {
    k in v.artifacts ==>
      var a := v.artifacts[k];
      && k.job in v.jobs
      && (k.job, k.generation) in v.staging
      && (!a.claimed ==> k in v.objects)
      && (a.claimed && a.state == Staged ==> a.deleteAfter <= v.clock + RETRY_HOLD)
      && (a.state == Published ==> !a.claimed)
      && (a.state == DeletePending || a.state == Deleted ==> a.claimed)
      && (a.state == Published || a.state == DeletePending ==>
            k.generation == v.jobs[k.job].cloneGeneration && !CloneOpen(v.jobs[k.job].clone) && v.jobs[k.job].clone != CloneFailed)
  }

  ghost predicate JobOk(v: Vault, job: Id) {
    job in v.jobs && Served(v.jobs[job].clone) ==>
      forall k :: k in Pair(job, v.jobs[job].cloneGeneration) ==>
        k in v.artifacts && v.artifacts[k].state != Staged && (k.kind == StaticArchive ==> v.artifacts[k].state != Deleted)
  }

  ghost predicate VaultOk(v: Vault) {
    && v.staging !! v.dropped
    && (forall k {:trigger RowOk(v, k)} :: RowOk(v, k))
    && (forall job {:trigger JobOk(v, job)} :: JobOk(v, job))
  }

  lemma TickKeeps(v: Vault, now: int)
    requires VaultOk(v) && v.clock <= now
    ensures VaultOk(v.(clock := now))
  {
    var w := v.(clock := now);
    forall k ensures RowOk(w, k) { assert RowOk(v, k); }
    forall job ensures JobOk(w, job) { assert JobOk(v, job); }
  }

  lemma InPair(k: Key)
    ensures k in Pair(k.job, k.generation)
  {
    match k.kind {
      case StaticArchive => assert k == Key(k.job, k.generation, StaticArchive);
      case Manifest => assert k == Key(k.job, k.generation, Manifest);
    }
  }

  lemma PublishKeeps(v: Vault, job: Id, worker: Id, generation: nat, build: BuildStatus, started: int)
    requires VaultOk(v) && v.clock - SAFE_LAG <= started <= v.clock
    ensures VaultOk(StageResult(v, job, worker, generation, build, started))
  {
    var w := StageResult(v, job, worker, generation, build, started);
    forall k ensures RowOk(w, k) {
      assert RowOk(v, k);
      InPair(k);
    }
    forall other ensures JobOk(w, other) { assert JobOk(v, other); }
  }

  lemma ActKeeps(v: Vault, action: Action)
    requires VaultOk(v) && Timely(action, v.clock, SAFE_LAG)
    ensures VaultOk(Act(v, action))
  {
    if action.Storing? {
      PublishKeeps(v, action.job, action.worker, action.generation, action.build, action.started);
    } else {
      var w := Act(v, action);
      forall k ensures RowOk(w, k) { assert RowOk(v, k); }
      forall job ensures JobOk(w, job) { assert JobOk(v, job); }
    }
  }

  lemma {:induction false} RunOk(run: seq<Vault>)
    requires IsVaultRun(run, SAFE_LAG)
    ensures VaultOk(Now(run))
  {
    hide Act, RowOk, JobOk;
    if |run| == 1 {
      forall k ensures RowOk(run[0], k) { NoRows(run[0], k, 0); }
      forall job ensures JobOk(run[0], job) { NoRows(run[0], Key(0, 0, Manifest), job); }
    } else {
      var init := run[..|run| - 1];
      forall i | 0 < i < |init| ensures StepsAt(init, i, SAFE_LAG) {
        assert StepsAt(run, i, SAFE_LAG);
      }
      RunOk(init);
      assert StepsAt(run, |run| - 1, SAFE_LAG);
      var v := Now(init);
      var action, now :| v.clock <= now && Timely(action, now, SAFE_LAG) && Now(run) == Act(v.(clock := now), action);
      TickKeeps(v, now);
      ActKeeps(v.(clock := now), action);
    }
  }

  lemma NoRows(v: Vault, k: Key, job: Id)
    requires v.artifacts == map[] && v.jobs == map[]
    ensures RowOk(v, k) && JobOk(v, job)
  {}

  // ------------------------------------------------------------ what follows

  /** A published artifact was never claimed by a collector, and its object is still stored. */
  lemma PublishedIsStored(run: seq<Vault>, k: Key)
    requires IsVaultRun(run, SAFE_LAG) && k in Now(run).artifacts && Now(run).artifacts[k].state == Published
    ensures !Now(run).artifacts[k].claimed && k in Now(run).objects
  {
    hide StepsAt;
    RunOk(run);
    assert RowOk(Now(run), k);
  }

  lemma RunOkAt(run: seq<Vault>, i: nat)
    requires IsVaultRun(run, SAFE_LAG) && i < |run|
    ensures VaultOk(run[i])
  {
    hide VaultOk;
    var part := run[..i + 1];
    forall n | 0 < n < |part| ensures StepsAt(part, n, SAFE_LAG) {
      assert StepsAt(run, n, SAFE_LAG);
    }
    RunOk(part);
  }

  /** The clone of the job has ended, one way or another, and names this generation. */
  predicate Ended(v: Vault, job: Id, generation: nat) {
    job in v.jobs && !CloneOpen(v.jobs[job].clone) && v.jobs[job].cloneGeneration == generation
  }

  lemma EndedStep(v: Vault, action: Action, job: Id, generation: nat)
    requires Ended(v, job, generation)
    ensures Ended(Act(v, action), job, generation)
  {}

  /** A clone that has ended names its generation for good. */
  lemma {:induction false} EndedForGood(run: seq<Vault>, lag: nat, i: nat, j: nat, job: Id, generation: nat)
    requires IsVaultRun(run, lag) && i <= j < |run| && Ended(run[i], job, generation)
    ensures Ended(run[j], job, generation)
    decreases j
  {
    hide Act, Ended;
    if i < j {
      EndedForGood(run, lag, i, j - 1, job, generation);
      assert StepsAt(run, j, lag);
      var v := run[j - 1];
      var action, now :| v.clock <= now && Timely(action, now, lag) && run[j] == Act(v.(clock := now), action);
      assert Ended(v.(clock := now), job, generation) by { EndedClock(v, now, job, generation); }
      EndedStep(v.(clock := now), action, job, generation);
    }
  }

  lemma EndedClock(v: Vault, now: int, job: Id, generation: nat)
    requires Ended(v, job, generation)
    ensures Ended(v.(clock := now), job, generation)
  {}

  /** A row that is published, or was and waits for its deletion. */
  predicate WasPublished(v: Vault, k: Key) {
    k in v.artifacts && (v.artifacts[k].state == Published || v.artifacts[k].state == DeletePending)
  }

  lemma PublishedEnded(v: Vault, k: Key)
    requires VaultOk(v) && WasPublished(v, k)
    ensures Ended(v, k.job, k.generation)
  {
    assert RowOk(v, k);
  }

  /** Across a whole run a job publishes at most one generation, the one it names from then on. */
  lemma OneGenerationPublished(run: seq<Vault>, i: nat, j: nat, a: Key, b: Key)
    requires IsVaultRun(run, SAFE_LAG) && i <= j < |run|
    requires WasPublished(run[i], a) && WasPublished(run[j], b) && a.job == b.job
    ensures a.generation == b.generation
    ensures a.job in run[j].jobs && run[j].jobs[a.job].cloneGeneration == a.generation
  {
    hide IsVaultRun, VaultOk, WasPublished;
    RunOkAt(run, i);
    RunOkAt(run, j);
    PublishedEnded(run[i], a);
    PublishedEnded(run[j], b);
    EndedForGood(run, SAFE_LAG, i, j, a.job, a.generation);
  }

  lemma AddState(run: seq<Vault>, w: Vault, action: Action, now: int, lag: nat)
    requires IsVaultRun(run, lag) && Now(run).clock <= now && Timely(action, now, lag)
    requires w == Act(Now(run).(clock := now), action)
    ensures IsVaultRun(run + [w], lag) && Now(run + [w]) == w
  {
    hide Act;
    assert Steps(Now(run), w, lag);
    hide Steps;
    var more := run + [w];
    forall i | 0 < i < |more| ensures StepsAt(more, i, lag) {
      if i < |run| {
        assert StepsAt(run, i, lag);
      }
    }
  }

  lemma Advance(run: seq<Vault>, lag: nat, action: Action, now: int) returns (more: seq<Vault>)
    requires IsVaultRun(run, lag) && Now(run).clock <= now && Timely(action, now, lag)
    ensures IsVaultRun(more, lag) && Now(more) == Act(Now(run).(clock := now), action)
  {
    var w := Act(Now(run).(clock := now), action);
    AddState(run, w, action, now, lag);
    more := run + [w];
  }

  /** A job whose first generation has uploaded and staged both artifacts at time 0. */
  lemma StagedOnce(lag: nat) returns (run: seq<Vault>)
    ensures IsVaultRun(run, lag)
    ensures Now(run) == Vault(0, map[1 := Job(Rendering, 7, 1, LEASE, 1, CloneRunning, 1)],
      map[Key(1, 1, StaticArchive) := Artifact(Staged, STAGING_LIFE, false), Key(1, 1, Manifest) := Artifact(Staged, STAGING_LIFE, false)],
      Pair(1, 1), {(1, 1)}, {})
  {
    run := [Vault(0, map[], map[], {}, {}, {})];
    var j0 := Job(CaptureQueued, 0, 0, 0, 0, CloneQueued, 0);
    var j1 := Job(Rendering, 7, 1, LEASE, 1, CloneRunning, 1);
    var a := Vault(0, map[1 := j0], map[], {}, {}, {});
    AddState(run, a, Accepting(1), 0, lag);
    run := run + [a];
    var b := Vault(0, map[1 := j1], map[], {}, {}, {});
    assert a.jobs[1 := j1] == b.jobs;
    AddState(run, b, Claiming(1, 7), 0, lag);
    run := run + [b];
    var c := Vault(0, map[1 := j1], map[], {Key(1, 1, StaticArchive)}, {}, {});
    AddState(run, c, Uploading(Key(1, 1, StaticArchive)), 0, lag);
    run := run + [c];
    var d := Vault(0, map[1 := j1], map[], Pair(1, 1), {}, {});
    assert c.objects + {Key(1, 1, Manifest)} == Pair(1, 1);
    AddState(run, d, Uploading(Key(1, 1, Manifest)), 0, lag);
    run := run + [d];
    var e := Act(d, Action.Staging(1, 7, 1));
    AddState(run, e, Action.Staging(1, 7, 1), 0, lag);
    run := run + [e];
    assert d.(clock := 0) == d;
  }

  /** A collector claims both staged artifacts when they are due, and puts them back. */
  lemma PutBack(lag: nat) returns (run: seq<Vault>)
    ensures IsVaultRun(run, lag)
    ensures Now(run) == Vault(STAGING_LIFE, map[1 := Job(Rendering, 7, 1, LEASE, 1, CloneRunning, 1)],
      map[Key(1, 1, StaticArchive) := Artifact(Staged, STAGING_LIFE + RETRY_HOLD, true),
          Key(1, 1, Manifest) := Artifact(Staged, STAGING_LIFE + RETRY_HOLD, true)],
      Pair(1, 1), {(1, 1)}, {})
  {
    var now := STAGING_LIFE;
    var archive, manifest := Key(1, 1, StaticArchive), Key(1, 1, Manifest);
    run := StagedOnce(lag);
    run := Advance(run, lag, Collecting(archive), now);
    run := Advance(run, lag, Collecting(manifest), now);
    run := Advance(run, lag, Retrying(archive), now);
    run := Advance(run, lag, Retrying(manifest), now);
  }

  /**
   * The bound is exact: when a publication may start more than four minutes
   * before it reads the rows, it can publish artifacts that a collector has
   * claimed, and a published archive loses its object.
   */
  lemma LatePublicationRaces(lag: nat) returns (run: seq<Vault>)
    requires lag > SAFE_LAG
    ensures IsVaultRun(run, lag)
    ensures var archive := Key(1, 1, StaticArchive);
      && archive in Now(run).artifacts && Now(run).artifacts[archive].state == Published
      && Now(run).artifacts[archive].claimed && archive !in Now(run).objects
    ensures 1 in Now(run).jobs && Now(run).jobs[1].clone == ClonePublished && Now(run).jobs[1].cloneGeneration == 1
  {
    run := PutBack(lag);
    var v := Now(run);
    var started := STAGING_LIFE - SAFE_LAG - 1;
    assert Publishable(v.artifacts, 1, 1, started);
    run := Advance(run, lag, Storing(1, 7, 1, BuildPublished, started), STAGING_LIFE);
    assert v.(clock := STAGING_LIFE) == v;
    run := Advance(run, lag, Deleting(Key(1, 1, StaticArchive)), STAGING_LIFE);
  }

  /**
   * After the row of a claimed archive is deleted a served job reads EXPIRED;
   * its published archive is deleted then exactly when that row was it.
   */
  lemma ExpiredMeansGone(run: seq<Vault>, k: Key)
    requires IsVaultRun(run, SAFE_LAG)
    requires k.kind == StaticArchive && k in Now(run).artifacts && Now(run).artifacts[k].claimed
    requires Now(run).artifacts[k].state == Staged || Now(run).artifacts[k].state == DeletePending
    requires k.job in Now(run).jobs && Served(Now(run).jobs[k.job].clone)
    ensures var v, w := Now(run), CompleteDeletion(Now(run), k);
      var published := Key(k.job, v.jobs[k.job].cloneGeneration, StaticArchive);
      && w.jobs[k.job].clone == CloneExpired
      && published in w.artifacts
      && (w.artifacts[published].state == Deleted <==> k.generation == v.jobs[k.job].cloneGeneration)
  {
    hide StepsAt;
    RunOk(run);
    var v := Now(run);
    assert JobOk(v, k.job);
    var published := Key(k.job, v.jobs[k.job].cloneGeneration, StaticArchive);
    assert published in Pair(k.job, v.jobs[k.job].cloneGeneration);
  }

  function FirstRows(): map<Key, Artifact> {
    map[Key(1, 1, StaticArchive) := Artifact(Staged, STAGING_LIFE, false), Key(1, 1, Manifest) := Artifact(Staged, STAGING_LIFE, false)]
  }

  function SecondRows(state: ArtifactState, deleteAfter: int): map<Key, Artifact> {
    FirstRows()[Key(1, 2, StaticArchive) := Artifact(state, deleteAfter, false)][Key(1, 2, Manifest) := Artifact(state, deleteAfter, false)]
  }

  /** The staged generation of StagedOnce loses its lease, and a second one uploads. */
  lemma SecondUploaded() returns (run: seq<Vault>)
    ensures IsVaultRun(run, 0)
    ensures Now(run) == Vault(LEASE, map[1 := Job(Rendering, 7, 2, LEASE + LEASE, 2, CloneRunning, 2)],
                              FirstRows(), Pair(1, 1) + Pair(1, 2), {(1, 1)}, {})
  {
    run := StagedOnce(0);
    run := Advance(run, 0, Expiring(1), LEASE);
    run := Advance(run, 0, Claiming(1, 7), LEASE);
    assert Now(run).jobs == map[1 := Job(Rendering, 7, 2, LEASE + LEASE, 2, CloneRunning, 2)];
    run := Advance(run, 0, Uploading(Key(1, 2, StaticArchive)), LEASE);
    run := Advance(run, 0, Uploading(Key(1, 2, Manifest)), LEASE);
    assert Now(run).objects == Pair(1, 1) + Pair(1, 2);
  }

  lemma SecondStaged() returns (run: seq<Vault>)
    ensures IsVaultRun(run, 0) && Now(run).clock == LEASE
    ensures Now(run).jobs == map[1 := Job(Rendering, 7, 2, LEASE + LEASE, 2, CloneRunning, 2)]
    ensures Now(run).artifacts == SecondRows(Staged, LEASE + STAGING_LIFE) && Now(run).objects == Pair(1, 1) + Pair(1, 2)
  {
    run := SecondUploaded();
    var v := Now(run);
    run := Advance(run, 0, Action.Staging(1, 7, 2), LEASE);
    assert v.(clock := LEASE) == v;
    assert Pair(1, 2) <= v.objects && Pair(1, 2) !! v.artifacts.Keys;
  }

  lemma SecondPublished() returns (run: seq<Vault>)
    ensures IsVaultRun(run, 0) && Now(run).clock == LEASE
    ensures Now(run).jobs == map[1 := Job(Persisting, 7, 2, LEASE + LEASE, 2, ClonePublished, 2)]
    ensures Now(run).artifacts == SecondRows(Published, LEASE + PUBLISHED_LIFE) && Now(run).objects == Pair(1, 1) + Pair(1, 2)
  {
    run := SecondStaged();
    var v := Now(run);
    assert Publishable(v.artifacts, 1, 2, LEASE);
    run := Advance(run, 0, Storing(1, 7, 2, BuildPublished, LEASE), LEASE);
    assert v.(clock := LEASE) == v;
  }

  /** A job can read EXPIRED while its published archive is stored and has days to live. */
  lemma ExpiredButStored() returns (run: seq<Vault>)
    ensures IsVaultRun(run, 0) && 1 in Now(run).jobs && Now(run).jobs[1].clone == CloneExpired && Now(run).jobs[1].cloneGeneration == 2
    ensures var archive := Key(1, 2, StaticArchive);
      && archive in Now(run).artifacts && Now(run).artifacts[archive].state == Published
      && Now(run).artifacts[archive].deleteAfter > Now(run).clock && archive in Now(run).objects
  {
    run := SecondPublished();
    var stale := Key(1, 1, StaticArchive);
    run := Advance(run, 0, Collecting(stale), STAGING_LIFE);
    run := Advance(run, 0, Deleting(stale), STAGING_LIFE);
    run := Advance(run, 0, Completing(stale), STAGING_LIFE);
  }
}
