/** How often a host is visited. */
module HostRate {
  import opened Common
  import opened Frontier
  import opened Cluster
  import opened ClusterInvariant
  import L = Ledger

  /** How many of the claims fall into the half-open interval from `from` to `to`. */
  ghost function ClaimsIn(claims: seq<int>, from: int, to: int): nat {
    if claims == [] then 0
    else ClaimsIn(claims[..|claims| - 1], from, to) + (if from <= claims[|claims| - 1] < to then 1 else 0)
  }

  /** The claims of a slot keep their distance, and the next one is told to. */
  ghost predicate Paced(slot: L.Slot, delay: nat) {
    && (forall i, j :: 0 <= i < j < |slot.claims| ==> slot.claims[i] + delay <= slot.claims[j])
    && (forall i :: 0 <= i < |slot.claims| ==> slot.claims[i] + delay <= slot.nextAllowedAt)
  }

  ghost predicate AllPaced(s: Cluster) {
    forall k {:trigger s.slots[k]} :: k in s.slots ==> Paced(s.slots[k], s.hostDelay)
  }

  /** What a transaction does to a slot: create it, claim it when free, or change its lease. */
  ghost predicate SlotStep(s: Cluster, k: L.SlotKey, slot: L.Slot, now: int) {
    if k !in s.slots then 1 <= k.1 <= s.hostConcurrency && slot == L.Slot(None, 0, now, [])
    else
      || slot == s.slots[k].(lease := slot.lease)
      || (L.SlotFree(s.slots[k], now) && exists owner, until :: slot == L.ClaimedSlot(s.slots[k], owner, until, s.hostDelay, now))
  }

  ghost predicate SlotSteps(s: Cluster, r: Cluster, now: int) {
    forall k {:trigger r.slots[k]} :: k in r.slots ==> SlotStep(s, k, r.slots[k], now)
  }

  lemma AcceptSlots(rules: UrlRules, s: Cluster, m: Envelope, seed: Id, now: int)
    ensures SlotSteps(s, AcceptEffect(rules, s, m, seed, now), now)
  {
    hide NewExecution;
  }

  lemma CancelSlots(s: Cluster, m: Envelope, now: int)
    ensures SlotSteps(s, CancelEffect(s, m, now), now)
  {
    hide Cancel, LeaseOwners;
  }

  lemma ClaimSlots(s: Cluster, scan: Id, p: Id, slotNo: nat, owner: Id, until: int, now: int)
    ensures SlotSteps(s, ClaimEffect(s, scan, p, slotNo, owner, until, now), now)
  {
    hide ClaimPage;
  }

  lemma LeaseSlots(rules: UrlRules, s: Cluster, action: Action, now: int)
    requires action.Extend? || action.Commit? || action.Sweep? || action.Deliver?
    ensures SlotSteps(s, Perform(rules, s, action, now), now)
  {
    hide ExtendLease, CommitResult, Reclaim, Apply, UsableIds;
  }

  lemma ActionSlots(rules: UrlRules, s: Cluster, action: Action, now: int)
    ensures SlotSteps(s, Perform(rules, s, action, now), now)
  {
    hide SlotSteps, AcceptEffect, CancelEffect, ClaimEffect;
    match action
    case Accept(m, seed) => AcceptSlots(rules, s, m, seed, now);
    case CancelScan(m) => CancelSlots(s, m, now);
    case Claim(scan, p, slotNo, owner, until) => ClaimSlots(s, scan, p, slotNo, owner, until, now);
    case _ => LeaseSlots(rules, s, action, now);
  }

  lemma StepsKeepPace(s: Cluster, r: Cluster, now: int)
    requires AllPaced(s) && SlotSteps(s, r, now) && r.hostDelay == s.hostDelay
    ensures AllPaced(r)
  {}

  lemma ActionPaced(rules: UrlRules, s: Cluster, action: Action, now: int)
    requires AllPaced(s)
    ensures AllPaced(Perform(rules, s, action, now))
  {
    hide Perform, AllPaced, SlotSteps;
    ActionSlots(rules, s, action, now);
    ActionClock(rules, s, action, now);
    StepsKeepPace(s, Perform(rules, s, action, now), now);
  }

  lemma {:induction false} HistoryPaced(rules: UrlRules, run: seq<Cluster>)
    requires IsHistory(rules, run)
    ensures AllPaced(Final(run))
  {
    hide Perform, AllPaced;
    if |run| > 1 {
      var init := run[..|run| - 1];
      HistoryStep(rules, run);
      HistoryPaced(rules, init);
      var action, now :| now >= Final(init).clock && Final(run) == Perform(rules, Final(init), action, now);
      ActionPaced(rules, Final(init), action, now);
    } else {
      NoSlots(run[0]);
    }
  }

  lemma NoSlots(s: Cluster)
    requires s.slots == map[]
    ensures AllPaced(s)
  {}

  /** Claims at least `delay` apart spread out over the interval they fall into. */
  lemma {:induction false} Spread(claims: seq<int>, delay: nat, from: int, to: int)
    requires forall i, j :: 0 <= i < j < |claims| ==> claims[i] + delay <= claims[j]
    ensures var n := ClaimsIn(claims, from, to);
      n > 0 ==> exists i :: 0 <= i < |claims| && from + (n - 1) * delay <= claims[i] < to
  {
    if claims != [] {
      var init, last := claims[..|claims| - 1], claims[|claims| - 1];
      Spread(init, delay, from, to);
      var n := ClaimsIn(init, from, to);
      if n > 0 {
        var i :| 0 <= i < |init| && from + (n - 1) * delay <= init[i] < to;
        assert claims[i] == init[i];
        OneMore(n, delay);
      }
      if from <= last < to {
        assert ClaimsIn(claims, from, to) == n + 1;
        assert from + n * delay <= claims[|claims| - 1] < to;
      }
    }
  }

  /** The number of steps of size `delay` that start inside an interval of length `length`. */
  function Ceiling(length: nat, delay: nat): nat
    requires delay > 0
  {
    (length + delay - 1) / delay
  }

  lemma BelowCeiling(n: nat, length: nat, delay: nat)
    requires delay > 0 && (n - 1) * delay < length
    ensures n <= Ceiling(length, delay)
  {
    if n > 0 {
      OneMore(n, delay);
      var q := Ceiling(length, delay);
      if q < n {
        Monotone(q + 1, n, delay);
        OneMore(q + 1, delay);
      }
    }
  }

  lemma Monotone(a: int, b: int, delay: nat)
    requires a <= b
    ensures a * delay <= b * delay
  {}

  lemma SlotRate(claims: seq<int>, delay: nat, from: int, length: nat)
    requires delay > 0
    requires forall i, j :: 0 <= i < j < |claims| ==> claims[i] + delay <= claims[j]
    ensures ClaimsIn(claims, from, from + length) <= Ceiling(length, delay)
  {
    Spread(claims, delay, from, from + length);
    var n := ClaimsIn(claims, from, from + length);
    if n > 0 {
      BelowCeiling(n, length, delay);
    }
  }

  /** The claims on the first `n` slots of a host. */
  ghost function HostClaims(s: Cluster, host: string, n: nat, from: int, to: int): nat {
    if n == 0 then 0
    else
      var own := if (host, n) in s.slots then ClaimsIn(s.slots[(host, n)].claims, from, to) else 0;
      HostClaims(s, host, n - 1, from, to) + own
  }

  lemma {:induction false} HostClaimsBound(s: Cluster, host: string, n: nat, from: int, length: nat)
    requires AllPaced(s) && s.hostDelay > 0
    ensures HostClaims(s, host, n, from, from + length) <= n * Ceiling(length, s.hostDelay)
  {
    if n > 0 {
      HostClaimsBound(s, host, n - 1, from, length);
      OneMore(n, Ceiling(length, s.hostDelay));
      if (host, n) in s.slots {
        SlotRate(s.slots[(host, n)].claims, s.hostDelay, from, length);
      }
    }
  }

  /** Every slot carries a number from 1 to the host concurrency. */
  ghost predicate SlotsNumbered(s: Cluster) {
    forall k {:trigger k in s.slots} :: k in s.slots ==> 1 <= k.1 <= s.hostConcurrency
  }

  lemma ActionNumbered(rules: UrlRules, s: Cluster, action: Action, now: int)
    requires SlotsNumbered(s)
    ensures SlotsNumbered(Perform(rules, s, action, now))
  {
    hide Perform;
    var r := Perform(rules, s, action, now);
    ActionSlots(rules, s, action, now);
    ActionClock(rules, s, action, now);
    forall k | k in r.slots ensures 1 <= k.1 <= r.hostConcurrency {
      assert SlotStep(s, k, r.slots[k], now);
    }
  }

  lemma {:induction false} HistoryNumbered(rules: UrlRules, run: seq<Cluster>)
    requires IsHistory(rules, run)
    ensures SlotsNumbered(Final(run))
  {
    hide Perform;
    if |run| > 1 {
      var init := run[..|run| - 1];
      HistoryStep(rules, run);
      HistoryNumbered(rules, init);
      var action, now :| now >= Final(init).clock && Final(run) == Perform(rules, Final(init), action, now);
      ActionNumbered(rules, Final(init), action, now);
    }
  }

  /**
   * Any interval of a given length sees at most hostConcurrency claims on a
   * host per started hostDelay, and there are no slots beyond those counted.
   */
  lemma HostVisitRate(rules: UrlRules, run: seq<Cluster>, host: string, from: int, length: nat)
    requires IsHistory(rules, run) && run[0].hostDelay > 0
    ensures var s := Final(run);
      HostClaims(s, host, s.hostConcurrency, from, from + length) <= run[0].hostConcurrency * Ceiling(length, run[0].hostDelay)
    ensures forall k :: k in Final(run).slots && k.0 == host ==> 1 <= k.1 <= run[0].hostConcurrency
  {
    HistoryOk(rules, run);
    HistoryPaced(rules, run);
    HistoryNumbered(rules, run);
    hide IsHistory, ClusterOk;
    HostClaimsBound(Final(run), host, Final(run).hostConcurrency, from, length);
  }
}
