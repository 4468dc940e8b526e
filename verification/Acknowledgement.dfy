/**
 * Who may acknowledge an event. The publisher claims every batch under an owner
 * of its own; the owners a scan has seen are read from the log of its
 * transactions.
 */
module Acknowledgement {
  import opened Common
  import opened Frontier
  import opened Pipeline

  /** A run of an accepted scan command together with its transactions and their times. */
  ghost predicate IsLoggedRun(rules: UrlRules, command: ScanCommand, run: seq<Execution>, log: seq<(Step, int)>) {
    && ValidCommand(command)
    && |run| == |log| + 1
    && (exists url, seed, start :: run[0] == NewExecution(command, url, seed, start))
    && forall i :: 0 <= i < |log| ==> run[i + 1] == Apply(rules, run[i], log[i].0, log[i].1)
  }

  ghost predicate ClaimsFor(step: Step, owner: Id) {
    step.ClaimEventStep? && step.owner == owner
  }

  /** The owner of a claim was not used by any claim before. */
  ghost predicate FreshBatchOwners(log: seq<(Step, int)>) {
    forall i, j, owner :: 0 <= i < j < |log| && ClaimsFor(log[i].0, owner) ==> !ClaimsFor(log[j].0, owner)
  }

  lemma PublishHolds(x: Execution, now: int, i: nat, owner: Id)
    ensures HoldsEvent(PublishProgress(x, now).outbox, i, owner) ==> HoldsEvent(x.outbox, i, owner)
  {
    hide Snapshot, Throttled;
  }

  lemma ReclaimHolds(x: Execution, skipLeases: bool, skipDeadline: bool, now: int, i: nat, owner: Id)
    ensures HoldsEvent(Reclaim(x, skipLeases, skipDeadline, now).outbox, i, owner) ==> HoldsEvent(x.outbox, i, owner)
  {
    var y := ReclaimRow(x, skipLeases, skipDeadline, now);
    ReclaimRowOutbox(x, skipLeases, skipDeadline, now);
    hide ReclaimRow;
    PublishHolds(y, now, i, owner);
    hide PublishProgress;
  }

  /** Nothing but a claim makes an owner hold an event. */
  lemma OnlyClaimsHold(rules: UrlRules, x: Execution, step: Step, now: int, i: nat, owner: Id)
    requires !HoldsEvent(x.outbox, i, owner) && HoldsEvent(Apply(rules, x, step, now).outbox, i, owner)
    ensures ClaimsFor(step, owner)
  {
    hide PublishProgress, Reclaim;
    match step
    case ClaimStep(p, o, until) => if Enabled(x, step, now) { PublishHolds(ClaimRow(x, p, o, until), now, i, owner); }
    case CommitStep(p, _, _, result, ids, retryAt) =>
      if Enabled(x, step, now) {
        PublishHolds(if ShouldRetryPage(result, x.pages[p].attempts) then RequeueRow(x, p, retryAt)
                     else StageRow(rules, x, p, result, ids, now), now, i, owner);
      }
    case AnalyticsStep(p, _) => if Enabled(x, step, now) { PublishHolds(AnalyticsRow(x, p), now, i, owner); }
    case CancelStep(version) => if Enabled(x, step, now) { PublishHolds(CancelRow(x, version), now, i, owner); }
    case ReclaimStep(skipLeases, skipDeadline) => ReclaimHolds(x, skipLeases, skipDeadline, now, i, owner);
    case _ =>
  }

  /** Who holds an event has claimed one before. */
  lemma {:induction false} HeldWasClaimed(rules: UrlRules, command: ScanCommand, run: seq<Execution>, log: seq<(Step, int)>, n: nat, i: nat, owner: Id)
    requires IsLoggedRun(rules, command, run, log) && n < |run| && HoldsEvent(run[n].outbox, i, owner)
    ensures exists a :: 0 <= a < n && ClaimsFor(log[a].0, owner)
  {
    hide Apply;
    if n > 0 {
      assert run[n - 1 + 1] == Apply(rules, run[n - 1], log[n - 1].0, log[n - 1].1);
      if HoldsEvent(run[n - 1].outbox, i, owner) {
        HeldWasClaimed(rules, command, run, log, n - 1, i, owner);
      } else {
        OnlyClaimsHold(rules, run[n - 1], log[n - 1].0, log[n - 1].1, i, owner);
      }
    }
  }

  /** Once lost, an event is never held again under the same owner. */
  lemma {:induction false} NeverHeldAgain(rules: UrlRules, command: ScanCommand, run: seq<Execution>, log: seq<(Step, int)>,
                                          n: nat, m: nat, k: nat, i: nat, owner: Id)
    requires IsLoggedRun(rules, command, run, log) && FreshBatchOwners(log)
    requires n <= m <= k < |run| && HoldsEvent(run[n].outbox, i, owner) && !HoldsEvent(run[m].outbox, i, owner)
    ensures !HoldsEvent(run[k].outbox, i, owner)
    decreases k
  {
    hide Apply;
    if m < k {
      NeverHeldAgain(rules, command, run, log, n, m, k - 1, i, owner);
      assert run[k - 1 + 1] == Apply(rules, run[k - 1], log[k - 1].0, log[k - 1].1);
      if HoldsEvent(run[k].outbox, i, owner) {
        OnlyClaimsHold(rules, run[k - 1], log[k - 1].0, log[k - 1].1, i, owner);
        HeldWasClaimed(rules, command, run, log, n, i, owner);
        assert false;
      }
    }
  }

  /**
   * An owner that has lost an event, to reclamation or to its own
   * acknowledgement, is superseded for good: whatever it still sends changes
   * nothing, at any later point of the scan.
   */
  lemma SupersededOwner(rules: UrlRules, command: ScanCommand, run: seq<Execution>, log: seq<(Step, int)>,
                        n: nat, m: nat, k: nat, i: nat, owner: Id, retryAt: int, now: int)
    requires IsLoggedRun(rules, command, run, log) && FreshBatchOwners(log)
    requires n <= m <= k < |run| && HoldsEvent(run[n].outbox, i, owner) && !HoldsEvent(run[m].outbox, i, owner)
    ensures Apply(rules, run[k], CompleteEventStep(i, owner), now) == run[k]
    ensures Apply(rules, run[k], RetryEventStep(i, owner, retryAt), now) == run[k]
  {
    hide IsLoggedRun, FreshBatchOwners, HoldsEvent;
    NeverHeldAgain(rules, command, run, log, n, m, k, i, owner);
  }
}
