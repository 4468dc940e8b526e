/** The artifact methods of the capture database and the collector that calls them. */
module CaptureStore {
  import opened Common
  import opened CloneVault

  class CaptureDatabase {
    var jobs: map<Id, Job>
    var artifacts: map<Key, Artifact>
    var objects: set<Key>              // the object storage
    ghost var clock: int
    ghost var staging: set<(Id, nat)>
    ghost var dropped: set<(Id, nat)>

    ghost function State(): Vault
      reads this
    {
      Vault(clock, jobs, artifacts, objects, staging, dropped)
    }

    ghost predicate Valid()
      reads this
    {
      VaultOk(State())
    }

    constructor (now: int)
      ensures Valid() && State() == Vault(now, map[], map[], {}, {}, {})
    {
      jobs, artifacts, objects := map[], map[], {};
      clock, staging, dropped := now, {}, {};
      new;
      forall k ensures RowOk(State(), k) { NoRows(State(), k, 0); }
      forall job ensures JobOk(State(), job) { NoRows(State(), Key(0, 0, Manifest), job); }
    }

    /** What every method below starts from: its action keeps the vault in order. */
    lemma ActsAt(action: Action, now: int)
      requires Valid() && clock <= now && Timely(action, now, SAFE_LAG)
      ensures VaultOk(Act(State().(clock := now), action))
    {
      hide Act, VaultOk;
      TickKeeps(State(), now);
      ActKeeps(State().(clock := now), action);
    }

    /** Inserts both rows, or none when the lease is not held any more. */
    method StageReconstructionArtifacts(job: Id, worker: Id, generation: nat, now: int) returns (ok: bool)
      requires Valid() && clock <= now
      requires (job, generation) !in staging && (job, generation) !in dropped && Pair(job, generation) <= objects
      modifies this
      ensures Valid() && State() == Act(old(State()).(clock := now), Action.Staging(job, worker, generation))
      ensures ok ==> forall k :: k in Pair(job, generation) ==> k in artifacts && artifacts[k].state == Staged
      ensures !ok ==> artifacts == old(artifacts)
    {
      ActsAt(Action.Staging(job, worker, generation), now);
      hide VaultOk;
      clock := now;
      staging := staging + {(job, generation)};
      if !(job in jobs && jobs[job].capture == Rendering && jobs[job].worker == worker && jobs[job].generation == generation) {
        return false;
      }
      if jobs[job].clone != CloneRunning || jobs[job].cloneGeneration != generation {
        return false;
      }
      var archive, manifest := Key(job, generation, StaticArchive), Key(job, generation, Manifest);
      if archive in artifacts || manifest in artifacts {
        return false;
      }
      artifacts := artifacts[archive := Artifact(Staged, now + STAGING_LIFE, false)];
      artifacts := artifacts[manifest := Artifact(Staged, now + STAGING_LIFE, false)];
      ok := true;
    }

    /** Stores the capture's result; publishes the staged clone when both rows still have their margin. */
    method StageResult(job: Id, worker: Id, generation: nat, build: BuildStatus, started: int, now: int) returns (published: bool)
      requires Valid() && clock <= now && now - SAFE_LAG <= started <= now
      modifies this
      ensures Valid() && State() == Act(old(State()).(clock := now), Storing(job, worker, generation, build, started))
      ensures published ==> forall k :: k in Pair(job, generation) ==>
        k in artifacts && artifacts[k].state == Published && !artifacts[k].claimed && k in objects
      ensures !published ==> artifacts == old(artifacts)
    {
      ActsAt(Storing(job, worker, generation, build, started), now);
      clock := now;
      if !(job in jobs && jobs[job].capture == Rendering && jobs[job].worker == worker && jobs[job].generation == generation) {
        return false;
      }
      var j := jobs[job];
      var status := j.clone;
      published := false;
      if j.clone == CloneRunning && j.cloneGeneration == generation {
        status := CloneFailed;
        if build != BuildFailed && Publishable(artifacts, job, generation, started) {
          artifacts := map k | k in artifacts :: PublishRow(k, artifacts[k], job, generation, started);
          status := if build == BuildPublished then ClonePublished else ClonePartial;
          published := true;
        }
      }
      jobs := jobs[job := j.(capture := Persisting, clone := status)];
      assert State() == Act(old(State()).(clock := now), Storing(job, worker, generation, build, started));
      forall k | published && k in Pair(job, generation) ensures !artifacts[k].claimed && k in objects {
        assert RowOk(State(), k);
      }
    }

    /** The next expired row, marked for its collector. */
    method ClaimReconstructionArtifactForDeletion(now: int) returns (claimed: Option<Key>)
      requires Valid() && clock <= now
      modifies this
      ensures Valid()
      ensures claimed.None? ==> State() == old(State()).(clock := now)
      ensures claimed.None? ==> forall k :: k in artifacts && artifacts[k].state != Deleted ==> artifacts[k].deleteAfter > now
      ensures claimed.Some? ==>
        && State() == Act(old(State()).(clock := now), Collecting(claimed.value))
        && claimed.value in old(artifacts) && old(artifacts)[claimed.value].deleteAfter <= now
        && artifacts[claimed.value].claimed && artifacts[claimed.value].state != Published && artifacts[claimed.value].state != Deleted
    {
      TickKeeps(State(), now);
      if k :| k in artifacts && artifacts[k].state != Deleted && artifacts[k].deleteAfter <= now {
        ActsAt(Collecting(k), now);
        hide VaultOk;
        clock := now;
        var a := artifacts[k];
        artifacts := artifacts[k := Artifact(if a.state == Staged then Staged else DeletePending, now + CLAIM_HOLD, true)];
        claimed := Some(k);
      } else {
        clock := now;
        claimed := None;
      }
    }

    method CompleteReconstructionArtifactDeletion(k: Key, now: int) returns (ok: bool)
      requires Valid() && clock <= now && k in artifacts && artifacts[k].claimed
      modifies this
      ensures Valid() && State() == Act(old(State()).(clock := now), Completing(k))
      ensures ok <==> old(artifacts)[k].state == Staged || old(artifacts)[k].state == DeletePending
      ensures artifacts == if ok then old(artifacts)[k := old(artifacts)[k].(state := Deleted)] else old(artifacts)
    {
      ActsAt(Completing(k), now);
      hide VaultOk;
      clock := now;
      if artifacts[k].state != Staged && artifacts[k].state != DeletePending {
        return false;
      }
      artifacts := artifacts[k := artifacts[k].(state := Deleted)];
      if k.kind == StaticArchive && k.job in jobs && Served(jobs[k.job].clone) {
        jobs := jobs[k.job := jobs[k.job].(clone := CloneExpired)];
      }
      ok := true;
    }

    method RetryReconstructionArtifactDeletion(k: Key, now: int)
      requires Valid() && clock <= now && k in artifacts && artifacts[k].claimed
      modifies this
      ensures Valid() && State() == Act(old(State()).(clock := now), Retrying(k))
      ensures artifacts == if old(artifacts)[k].state == Staged || old(artifacts)[k].state == DeletePending
        then old(artifacts)[k := old(artifacts)[k].(deleteAfter := now + RETRY_HOLD)] else old(artifacts)
    {
      ActsAt(Retrying(k), now);
      hide VaultOk;
      clock := now;
      if artifacts[k].state == Staged || artifacts[k].state == DeletePending {
        artifacts := artifacts[k := artifacts[k].(deleteAfter := now + RETRY_HOLD)];
      }
    }

    /**
     * One pass of the collector: claim, delete the object, then complete; a
     * deletion that fails is put off. Whatever happens, an artifact that is
     * published and has not expired keeps its row and its object.
     */
    method CollectOne(deletionFails: bool, now: int, later: int) returns (found: bool)
      requires Valid() && clock <= now <= later
      modifies this
      ensures Valid()
      ensures forall k :: k in old(artifacts) && old(artifacts)[k].state == Published && old(artifacts)[k].deleteAfter > now ==>
        k in artifacts && artifacts[k] == old(artifacts)[k] && k in objects
      ensures !found ==> artifacts == old(artifacts) && jobs == old(jobs) && objects == old(objects)
    {
      forall k | k in artifacts && artifacts[k].state == Published ensures k in objects {
        assert RowOk(State(), k);
      }
      hide VaultOk;
      var k := ClaimReconstructionArtifactForDeletion(now);
      if k.None? {
        return false;
      }
      found := true;
      if deletionFails {
        RetryReconstructionArtifactDeletion(k.value, later);
      } else {
        ActsAt(Deleting(k.value), later);
        clock := later;
        objects := objects - {k.value};
        var ok := CompleteReconstructionArtifactDeletion(k.value, later);
      }
    }
  }
}
