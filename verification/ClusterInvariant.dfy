/** The store keeps the ledger in order, and each of its executions makes only transactions of its own. */
module ClusterInvariant {
  import opened Common
  import opened Frontier
  import opened FrontierInvariant
  import opened EventLane
  import opened Termination
  import opened PageHolds
  import opened Cluster
  import L = Ledger

  // ---------------------------------------------------- the ledger's view

  lemma PutHost(executions: map<Id, Execution>, scan: Id, x: Execution)
    ensures HostsOf(executions[scan := x]) == HostsOf(executions)[scan := x.host]
  {}

  lemma PutHolds(executions: map<Id, Execution>, scan: Id, x: Execution)
    ensures HoldsOf(executions[scan := x]) == HoldsOf(executions)[scan := Holds(x)]
  {
    hide Holds;
  }

  /** Replacing one execution replaces its entry in the ledger. */
  lemma ReplaceView(s: Cluster, r: Cluster, scan: Id)
    requires scan in s.executions && scan in r.executions
    requires r.executions == s.executions[scan := r.executions[scan]]
    requires r.executions[scan].host == s.executions[scan].host && r.hostConcurrency == s.hostConcurrency
    ensures View(r) == View(s).(clock := r.clock, holds := View(s).holds[scan := Holds(r.executions[scan])], slots := r.slots, issued := r.issued)
  {
    PutHost(s.executions, scan, r.executions[scan]);
    PutHolds(s.executions, scan, r.executions[scan]);
    assert HostsOf(s.executions)[scan := r.executions[scan].host] == HostsOf(s.executions);
    hide HoldsOf, Holds;
  }

  lemma SameView(s: Cluster, r: Cluster)
    requires r == s.(clock := r.clock, inbox := r.inbox)
    ensures View(r) == L.Wait(View(s), r.clock)
  {
    hide Holds;
  }

  /** What StillHolds asks of the rows is what the ledger asks. */
  lemma StillHoldsView(s: Cluster, owner: Id, t: L.Token)
    ensures StillHolds(s, owner, t) <==> L.Holding(View(s), owner, t)
  {}

  ghost predicate KeepsLedger(s: Cluster, r: Cluster) {
    r.clock >= s.clock && L.LedgerOk(View(s)) ==> L.LedgerOk(View(r))
  }

  lemma WaitLedger(s: Cluster, r: Cluster)
    requires r == s.(clock := r.clock, inbox := r.inbox)
    ensures KeepsLedger(s, r)
  {
    SameView(s, r);
    hide View, L.LedgerOk;
    if r.clock >= s.clock && L.LedgerOk(View(s)) {
      ClockView(s);
      L.WaitKeeps(View(s), r.clock);
    }
  }

  lemma ClockView(s: Cluster)
    ensures View(s).clock == s.clock && View(s).hosts.Keys == s.executions.Keys == View(s).holds.Keys
  {}

  lemma AcceptLedger(rules: UrlRules, s: Cluster, m: Envelope, seed: Id, now: int)
    ensures KeepsLedger(s, AcceptEffect(rules, s, m, seed, now))
  {
    hide NewExecution, L.FreshSlots, ValidCommand, View, L.LedgerOk;
    var r := AcceptEffect(rules, s, m, seed, now);
    if AcceptOutcome(rules, s, m) == Applied {
      AcceptView(rules, s, m, seed, now);
      hide AcceptEffect;
      if now >= s.clock && L.LedgerOk(View(s)) {
        ClockView(s);
        L.OpenKeeps(View(s), m.body.scan, Accepted(m).host, now);
      }
    } else {
      hide KeepsLedger;
      WaitLedger(s, r);
    }
  }

  lemma NewHolds(command: ScanCommand, url: string, seed: Id, now: int)
    ensures Holds(NewExecution(command, url, seed, now)) == map[]
    ensures NewExecution(command, url, seed, now).host == command.host
  {}

  lemma AcceptView(rules: UrlRules, s: Cluster, m: Envelope, seed: Id, now: int)
    requires AcceptOutcome(rules, s, m) == Applied
    ensures View(AcceptEffect(rules, s, m, seed, now)) == L.Open(View(s), m.body.scan, Accepted(m).host, now)
    ensures AcceptEffect(rules, s, m, seed, now).clock == now
  {
    var x := NewExecution(Accepted(m), TargetUrl(rules, m).value, seed, now);
    NewHolds(Accepted(m), TargetUrl(rules, m).value, seed, now);
    PutHost(s.executions, m.body.scan, x);
    PutHolds(s.executions, m.body.scan, x);
    hide Holds, HoldsOf, HostsOf, NewExecution;
  }

  lemma ClaimLedger(s: Cluster, scan: Id, p: Id, slotNo: nat, owner: Id, until: int, now: int)
    ensures KeepsLedger(s, ClaimEffect(s, scan, p, slotNo, owner, until, now))
  {
    var r := ClaimEffect(s, scan, p, slotNo, owner, until, now);
    if CanClaim(s, scan, p, slotNo, owner, now) {
      var token := GrantedToken(s, scan, p, slotNo);
      ClaimView(s, scan, p, slotNo, owner, until, now);
      hide ClaimEffect, View, L.LedgerOk, CanClaim;
      if now >= s.clock && L.LedgerOk(View(s)) {
        ClockView(s);
        L.GrantKeeps(View(s), owner, token, until, s.hostDelay, now);
      }
    } else {
      hide KeepsLedger;
      WaitLedger(s, r);
    }
  }

  lemma ClaimGrantable(s: Cluster, scan: Id, p: Id, slotNo: nat, owner: Id, now: int)
    requires CanClaim(s, scan, p, slotNo, owner, now)
    ensures L.Grantable(View(s), owner, GrantedToken(s, scan, p, slotNo), now)
  {}

  lemma ClaimView(s: Cluster, scan: Id, p: Id, slotNo: nat, owner: Id, until: int, now: int)
    requires CanClaim(s, scan, p, slotNo, owner, now)
    ensures var token := GrantedToken(s, scan, p, slotNo);
      && L.Grantable(View(s), owner, token, now)
      && View(ClaimEffect(s, scan, p, slotNo, owner, until, now)) == L.Grant(View(s), owner, token, until, s.hostDelay, now)
    ensures ClaimEffect(s, scan, p, slotNo, owner, until, now).clock == now
  {
    var x := s.executions[scan];
    hide ClaimPage, Holds, HoldsOf, HostsOf, L.Grantable, L.SlotFree, Claimable;
    ClaimGrantable(s, scan, p, slotNo, owner, now);
    ClaimHolds(x, p, owner, until, now);
    ClaimHost(x, p, owner, until, now);
    ReplaceView(s, ClaimEffect(s, scan, p, slotNo, owner, until, now), scan);
  }

  lemma ClaimHost(x: Execution, p: Id, owner: Id, until: int, now: int)
    requires p in x.pages
    ensures ClaimPage(x, p, owner, until, now).host == x.host
  {
    hide Snapshot, Throttled;
  }

  lemma ExtendLedger(s: Cluster, owner: Id, t: L.Token, until: int, now: int)
    ensures KeepsLedger(s, ExtendEffect(s, owner, t, until, now))
  {
    var r := ExtendEffect(s, owner, t, until, now);
    if StillHolds(s, owner, t) {
      ExtendView(s, owner, t, until, now);
      hide ExtendEffect, View, L.LedgerOk, StillHolds;
      if now >= s.clock && L.LedgerOk(View(s)) {
        ClockView(s);
        L.ExtendKeeps(View(s), owner, t, until, now);
      }
    } else {
      hide KeepsLedger;
      WaitLedger(s, r);
    }
  }

  lemma ExtendView(s: Cluster, owner: Id, t: L.Token, until: int, now: int)
    requires StillHolds(s, owner, t)
    ensures L.Holding(View(s), owner, t)
    ensures View(ExtendEffect(s, owner, t, until, now)) == L.Extend(View(s), owner, t, until, now)
    ensures ExtendEffect(s, owner, t, until, now).clock == now
  {
    StillHoldsView(s, owner, t);
    ExtendHolds(s.executions[t.scan], t.page, until);
    ReplaceView(s, ExtendEffect(s, owner, t, until, now), t.scan);
  }

  lemma CommitLedger(rules: UrlRules, s: Cluster, owner: Id, t: L.Token, result: PageResult, ids: seq<Id>, retryAt: int, now: int)
    ensures KeepsLedger(s, CommitEffect(rules, s, owner, t, result, ids, retryAt, now))
  {
    var r := CommitEffect(rules, s, owner, t, result, ids, retryAt, now);
    if StillHolds(s, owner, t) && Storable(s.executions[t.scan], t.page, result) && UsableIds(s, t, result, ids) {
      CommitView(rules, s, owner, t, result, ids, retryAt, now);
      hide CommitEffect, View, L.LedgerOk, StillHolds;
      if now >= s.clock && L.LedgerOk(View(s)) {
        ClockView(s);
        L.ReleaseKeeps(View(s), owner, t, now);
      }
    } else {
      hide KeepsLedger;
      WaitLedger(s, r);
    }
  }

  lemma CommitHost(rules: UrlRules, x: Execution, p: Id, result: PageResult, ids: seq<Id>, retryAt: int, now: int)
    requires p in x.pages && |result.links| <= |ids|
    ensures CommitResult(rules, x, p, result, ids, retryAt, now).host == x.host
  {
    hide Snapshot, Throttled;
  }

  lemma CommitView(rules: UrlRules, s: Cluster, owner: Id, t: L.Token, result: PageResult, ids: seq<Id>, retryAt: int, now: int)
    requires StillHolds(s, owner, t) && Storable(s.executions[t.scan], t.page, result) && UsableIds(s, t, result, ids)
    ensures L.Holding(View(s), owner, t)
    ensures View(CommitEffect(rules, s, owner, t, result, ids, retryAt, now)) == L.Release(View(s), owner, t, now)
    ensures CommitEffect(rules, s, owner, t, result, ids, retryAt, now).clock == now
  {
    hide CommitResult, Storable, FreshIds;
    StillHoldsView(s, owner, t);
    CommitHolds(rules, s.executions[t.scan], t.page, result, ids, retryAt, now);
    CommitHost(rules, s.executions[t.scan], t.page, result, ids, retryAt, now);
    ReplaceView(s, CommitEffect(rules, s, owner, t, result, ids, retryAt, now), t.scan);
  }

  /** The owners a cancellation releases are the ledger's. */
  lemma OwnersView(x: Execution)
    ensures LeaseOwners(x) == L.Owners(Holds(x))
  {
    forall o | o in LeaseOwners(x) ensures o in L.Owners(Holds(x)) {
      var p :| p in x.pages && x.pages[p].status == PageLeased && x.pages[p].lease.Some? && x.pages[p].lease.value.owner == o;
      assert p in Holds(x) && Holds(x)[p].lease.owner == o;
    }
    forall o | o in L.Owners(Holds(x)) ensures o in LeaseOwners(x) {
      var p :| p in Holds(x) && Holds(x)[p].lease.owner == o;
      assert p in x.pages && x.pages[p].lease.value.owner == o;
    }
  }

  lemma CancelLedger(s: Cluster, m: Envelope, now: int)
    ensures KeepsLedger(s, CancelEffect(s, m, now))
  {
    var r := CancelEffect(s, m, now);
    if CancelOutcome(s, m) == Applied {
      CancelView(s, m, now);
      hide CancelEffect, View, L.LedgerOk;
      if now >= s.clock && L.LedgerOk(View(s)) {
        ClockView(s);
        L.CancelAllKeeps(View(s), m.body.scan, now);
      }
    } else {
      hide KeepsLedger;
      WaitLedger(s, r);
    }
  }

  lemma CancelHost(x: Execution, version: int, now: int)
    ensures Cancel(x, version, now).host == x.host
  {
    hide Snapshot, Throttled;
  }

  lemma CancelView(s: Cluster, m: Envelope, now: int)
    requires CancelOutcome(s, m) == Applied
    ensures View(CancelEffect(s, m, now)) == L.CancelAll(View(s), m.body.scan, now)
    ensures CancelEffect(s, m, now).clock == now
  {
    var x := s.executions[m.body.scan];
    OwnersView(x);
    CancelHolds(x, m.version, now);
    CancelHost(x, m.version, now);
    hide Cancel, LeaseOwners, Holds;
    ReplaceView(s, CancelEffect(s, m, now), m.body.scan);
  }

  lemma SweepLedger(s: Cluster, skipLeases: set<Id>, skipDeadline: set<Id>, now: int)
    ensures KeepsLedger(s, SweepEffect(s, skipLeases, skipDeadline, now))
  {
    SweepView(s, skipLeases, skipDeadline, now);
    hide SweepEffect, View, L.LedgerOk;
    if now >= s.clock && L.LedgerOk(View(s)) {
      ClockView(s);
      L.SweepKeeps(View(s), skipLeases, now);
    }
  }

  lemma SweepView(s: Cluster, skipLeases: set<Id>, skipDeadline: set<Id>, now: int)
    ensures View(SweepEffect(s, skipLeases, skipDeadline, now)) == L.Sweep(View(s), skipLeases, now)
    ensures SweepEffect(s, skipLeases, skipDeadline, now).clock == now
  {
    var r := SweepEffect(s, skipLeases, skipDeadline, now);
    hide Reclaim, Holds;
    forall scan | scan in s.executions
      ensures r.executions[scan].host == s.executions[scan].host
      ensures Holds(r.executions[scan]) == if scan in skipLeases then Holds(s.executions[scan]) else Unexpired(Holds(s.executions[scan]), now)
    {
      ReclaimHolds(s.executions[scan], scan in skipLeases, scan in skipDeadline, now);
      ReclaimCommand(s.executions[scan], scan in skipLeases, scan in skipDeadline, now);
    }
    hide Unexpired;
    assert View(r).hosts == View(s).hosts;
    assert View(r).holds == L.Sweep(View(s), skipLeases, now).holds;
  }

  lemma UntouchedView(s: Cluster, r: Cluster, scan: Id)
    requires scan in s.executions && scan in r.executions
    requires r == s.(clock := r.clock, executions := s.executions[scan := r.executions[scan]])
    requires r.executions[scan].host == s.executions[scan].host
    requires Holds(r.executions[scan]) == Holds(s.executions[scan])
    ensures View(r) == L.Wait(View(s), r.clock)
  {
    hide Holds;
    ReplaceView(s, r, scan);
    assert HoldsOf(s.executions)[scan := Holds(r.executions[scan])] == HoldsOf(s.executions);
  }

  lemma DeliverView(rules: UrlRules, s: Cluster, scan: Id, step: Step, now: int)
    requires scan in s.executions && Valid(rules, s.executions[scan]) && IsDelivery(step)
    ensures View(DeliverEffect(rules, s, scan, step, now)) == L.Wait(View(s), now)
    ensures DeliverEffect(rules, s, scan, step, now).clock == now
  {
    hide Valid, Apply, Holds, View;
    DeliveryHolds(rules, s.executions[scan], step, now);
    StepCommand(rules, s.executions[scan], step, now);
    UntouchedView(s, DeliverEffect(rules, s, scan, step, now), scan);
  }

  lemma DeliverLedger(rules: UrlRules, s: Cluster, scan: Id, step: Step, now: int)
    requires AllValid(rules, s.executions)
    ensures KeepsLedger(s, DeliverEffect(rules, s, scan, step, now))
  {
    hide Valid;
    if scan in s.executions && IsDelivery(step) {
      DeliverView(rules, s, scan, step, now);
      hide DeliverEffect, View, L.LedgerOk, AllValid;
      if now >= s.clock && L.LedgerOk(View(s)) {
        ClockView(s);
        L.WaitKeeps(View(s), now);
      }
    } else {
      hide KeepsLedger, AllValid;
      WaitLedger(s, DeliverEffect(rules, s, scan, step, now));
    }
  }

  lemma ActionLedger(rules: UrlRules, s: Cluster, action: Action, now: int)
    requires AllValid(rules, s.executions)
    ensures KeepsLedger(s, Perform(rules, s, action, now))
  {
    hide AllValid, KeepsLedger, AcceptEffect, CancelEffect, ClaimEffect, ExtendEffect, CommitEffect, SweepEffect, DeliverEffect;
    match action
    case Accept(m, seed) => AcceptLedger(rules, s, m, seed, now);
    case CancelScan(m) => CancelLedger(s, m, now);
    case Claim(scan, p, slotNo, owner, until) => ClaimLedger(s, scan, p, slotNo, owner, until, now);
    case Extend(owner, t, until) => ExtendLedger(s, owner, t, until, now);
    case Commit(owner, t, result, ids, retryAt) => CommitLedger(rules, s, owner, t, result, ids, retryAt, now);
    case Sweep(skipLeases, skipDeadline) => SweepLedger(s, skipLeases, skipDeadline, now);
    case Deliver(scan, step) => DeliverLedger(rules, s, scan, step, now);
  }

  // ----------------------------------------------- executions step by step

  /** Every execution that was there makes one of its own transactions, or none. */
  ghost predicate Projects(rules: UrlRules, s: Cluster, r: Cluster) {
    && s.executions.Keys <= r.executions.Keys
    && (forall scan {:trigger r.executions[scan]} :: scan in s.executions ==>
          r.executions[scan] == s.executions[scan] || Next(rules, s.executions[scan], r.executions[scan]))
    && (forall scan {:trigger r.executions[scan]} :: scan in r.executions && scan !in s.executions ==> New(r.executions[scan]))
  }

  ghost predicate New(x: Execution) {
    exists command, url, seed, start :: ValidCommand(command) && x == NewExecution(command, url, seed, start)
  }

  lemma StepProjects(rules: UrlRules, s: Cluster, r: Cluster, scan: Id, step: Step, now: int)
    requires scan in s.executions
    requires r.executions == s.executions[scan := Apply(rules, s.executions[scan], step, now)]
    ensures Projects(rules, s, r)
  {
    hide Apply;
    assert Next(rules, s.executions[scan], r.executions[scan]);
  }

  lemma ClaimProjects(rules: UrlRules, s: Cluster, scan: Id, p: Id, slotNo: nat, owner: Id, until: int, now: int)
    ensures Projects(rules, s, ClaimEffect(s, scan, p, slotNo, owner, until, now))
  {
    if CanClaim(s, scan, p, slotNo, owner, now) {
      var step := ClaimStep(p, owner, until);
      assert Apply(rules, s.executions[scan], step, now) == ClaimPage(s.executions[scan], p, owner, until, now) by { hide ClaimPage; }
      hide Apply, ClaimPage, Projects;
      StepProjects(rules, s, ClaimEffect(s, scan, p, slotNo, owner, until, now), scan, step, now);
    }
  }

  lemma ExtendProjects(rules: UrlRules, s: Cluster, owner: Id, t: L.Token, until: int, now: int)
    ensures Projects(rules, s, ExtendEffect(s, owner, t, until, now))
  {
    if StillHolds(s, owner, t) {
        var step := ExtendStep(t.page, owner, t.pageGeneration, until);
      assert Apply(rules, s.executions[t.scan], step, now) == ExtendLease(s.executions[t.scan], t.page, until) by { hide ExtendLease; }
      hide Apply, ExtendLease, Projects;
      StepProjects(rules, s, ExtendEffect(s, owner, t, until, now), t.scan, step, now);
    }
  }

  lemma CommitProjects(rules: UrlRules, s: Cluster, owner: Id, t: L.Token, result: PageResult, ids: seq<Id>, retryAt: int, now: int)
    ensures Projects(rules, s, CommitEffect(rules, s, owner, t, result, ids, retryAt, now))
  {
    if StillHolds(s, owner, t) && Storable(s.executions[t.scan], t.page, result) && UsableIds(s, t, result, ids) {
      var step := CommitStep(t.page, owner, t.pageGeneration, result, ids, retryAt);
      assert Apply(rules, s.executions[t.scan], step, now)
          == CommitResult(rules, s.executions[t.scan], t.page, result, ids, retryAt, now) by { hide CommitResult; }
      hide Apply, CommitResult, Projects;
      StepProjects(rules, s, CommitEffect(rules, s, owner, t, result, ids, retryAt, now), t.scan, step, now);
    }
  }

  lemma CancelProjects(rules: UrlRules, s: Cluster, m: Envelope, now: int)
    ensures Projects(rules, s, CancelEffect(s, m, now))
  {
    if CancelOutcome(s, m) == Applied {
      var step := CancelStep(m.version);
      assert Apply(rules, s.executions[m.body.scan], step, now) == Cancel(s.executions[m.body.scan], m.version, now) by { hide Cancel; }
      hide Apply, Cancel, Projects;
      StepProjects(rules, s, CancelEffect(s, m, now), m.body.scan, step, now);
    }
  }

  lemma AcceptProjects(rules: UrlRules, s: Cluster, m: Envelope, seed: Id, now: int)
    ensures Projects(rules, s, AcceptEffect(rules, s, m, seed, now))
  {
    hide NewExecution;
    if AcceptOutcome(rules, s, m) == Applied {
      assert New(NewExecution(Accepted(m), TargetUrl(rules, m).value, seed, now));
    }
  }

  lemma SweepProjects(rules: UrlRules, s: Cluster, skipLeases: set<Id>, skipDeadline: set<Id>, now: int)
    ensures Projects(rules, s, SweepEffect(s, skipLeases, skipDeadline, now))
  {
    var r := SweepEffect(s, skipLeases, skipDeadline, now);
    hide Reclaim;
    forall scan | scan in s.executions ensures Next(rules, s.executions[scan], r.executions[scan]) {
      var step := ReclaimStep(scan in skipLeases, scan in skipDeadline);
      assert r.executions[scan] == Apply(rules, s.executions[scan], step, now);
    }
  }

  lemma DeliverProjects(rules: UrlRules, s: Cluster, scan: Id, step: Step, now: int)
    ensures Projects(rules, s, DeliverEffect(rules, s, scan, step, now))
  {
    if scan in s.executions && IsDelivery(step) {
      hide Apply, Projects;
      StepProjects(rules, s, DeliverEffect(rules, s, scan, step, now), scan, step, now);
    }
  }

  /** A transaction of the store is a transaction of each execution it touches. */
  lemma ActionProjects(rules: UrlRules, s: Cluster, action: Action, now: int)
    ensures Projects(rules, s, Perform(rules, s, action, now))
  {
    hide Projects, AcceptEffect, CancelEffect, ClaimEffect, ExtendEffect, CommitEffect, SweepEffect, DeliverEffect;
    match action
    case Accept(m, seed) => AcceptProjects(rules, s, m, seed, now);
    case CancelScan(m) => CancelProjects(rules, s, m, now);
    case Claim(scan, p, slotNo, owner, until) => ClaimProjects(rules, s, scan, p, slotNo, owner, until, now);
    case Extend(owner, t, until) => ExtendProjects(rules, s, owner, t, until, now);
    case Commit(owner, t, result, ids, retryAt) => CommitProjects(rules, s, owner, t, result, ids, retryAt, now);
    case Sweep(skipLeases, skipDeadline) => SweepProjects(rules, s, skipLeases, skipDeadline, now);
    case Deliver(scan, step) => DeliverProjects(rules, s, scan, step, now);
  }

  lemma NextValid(rules: UrlRules, x: Execution, y: Execution)
    requires Valid(rules, x) && Next(rules, x, y)
    ensures Valid(rules, y)
  {
    hide Valid, Apply;
    var step, now :| y == Apply(rules, x, step, now);
    StepKeepsValid(rules, x, step, now);
  }

  lemma NewValid(rules: UrlRules, x: Execution)
    requires New(x)
    ensures Valid(rules, x)
  {
    hide Valid, ValidCommand, NewExecution;
    var command, url, seed, start :| ValidCommand(command) && x == NewExecution(command, url, seed, start);
    NewExecutionValid(rules, command, url, seed, start);
  }

  lemma ProjectsValid(rules: UrlRules, s: Cluster, r: Cluster)
    requires AllValid(rules, s.executions) && Projects(rules, s, r)
    ensures AllValid(rules, r.executions)
  {
    hide Valid, Next, New;
    forall scan | scan in r.executions ensures Valid(rules, r.executions[scan]) {
      if scan !in s.executions {
        NewValid(rules, r.executions[scan]);
      } else if r.executions[scan] != s.executions[scan] {
        NextValid(rules, s.executions[scan], r.executions[scan]);
      }
    }
  }

  /** Every transaction of the store keeps every execution and the ledger in order. */
  lemma TransactionKeeps(rules: UrlRules, s: Cluster, r: Cluster)
    requires ClusterOk(rules, s) && Transaction(rules, s, r)
    ensures ClusterOk(rules, r) && Projects(rules, s, r)
  {
    hide AllValid, View, L.LedgerOk, Projects, AcceptEffect, CancelEffect, ClaimEffect, ExtendEffect, CommitEffect, SweepEffect, DeliverEffect;
    var action, now :| now >= s.clock && r == Perform(rules, s, action, now);
    ActionClock(rules, s, action, now);
    ActionLedger(rules, s, action, now);
    ActionProjects(rules, s, action, now);
    ProjectsValid(rules, s, r);
  }

  lemma ActionClock(rules: UrlRules, s: Cluster, action: Action, now: int)
    ensures var r := Perform(rules, s, action, now);
      r.clock == now && r.hostConcurrency == s.hostConcurrency && r.hostDelay == s.hostDelay
  {
    hide AcceptEffect, CancelEffect, ClaimEffect, ExtendEffect, CommitEffect, SweepEffect, DeliverEffect;
  }

  lemma EmptyOk(rules: UrlRules, s: Cluster)
    requires EmptyStore(s)
    ensures ClusterOk(rules, s)
  {
    var l := View(s);
    forall o ensures L.TokenOk(l, o) {}
    forall k ensures L.SlotOk(l, k) {}
    forall scan, p ensures L.HoldOk(l, scan, p) {}
  }

  lemma {:induction false} HistoryOk(rules: UrlRules, run: seq<Cluster>)
    requires IsHistory(rules, run)
    ensures ClusterOk(rules, Final(run))
    ensures Final(run).hostConcurrency == run[0].hostConcurrency && Final(run).hostDelay == run[0].hostDelay
  {
    hide ClusterOk, Perform;
    if |run| == 1 {
      EmptyOk(rules, run[0]);
    } else {
      var init := run[..|run| - 1];
      HistoryStep(rules, run);
      HistoryOk(rules, init);
      TransactionKeeps(rules, Final(init), Final(run));
      var action, now :| now >= Final(init).clock && Final(run) == Perform(rules, Final(init), action, now);
      ActionClock(rules, Final(init), action, now);
    }
  }
}
