/** Commands in a history of the store: what is answered to a message that comes again, and to one that comes late. */
module Commands {
  import opened Common
  import opened Frontier
  import opened FrontierInvariant
  import opened Termination
  import opened Crawl
  import opened Cluster
  import opened ClusterInvariant
  import opened ScanLives
  import L = Ledger

  // ------------------------------------------------------------- the inbox

  ghost predicate Remembers(s: Cluster, r: Cluster) {
    forall id {:trigger id in r.inbox} :: id in s.inbox ==> id in r.inbox && r.inbox[id] == s.inbox[id]
  }

  lemma InboxStep(rules: UrlRules, s: Cluster, action: Action, now: int)
    ensures Remembers(s, Perform(rules, s, action, now))
  {
    hide AcceptOutcome, CancelOutcome, NewExecution, Cancel, CanClaim, StillHolds, Reclaim, Apply, CommitResult, ClaimPage;
    match action
    case Accept(m, seed) => AcceptRemembers(rules, s, m, seed, now);
    case CancelScan(m) => CancelRemembers(s, m, now);
    case _ =>
  }

  lemma AcceptRemembers(rules: UrlRules, s: Cluster, m: Envelope, seed: Id, now: int)
    ensures Remembers(s, AcceptEffect(rules, s, m, seed, now))
  {
    hide NewExecution;
  }

  lemma CancelRemembers(s: Cluster, m: Envelope, now: int)
    ensures Remembers(s, CancelEffect(s, m, now))
  {
    hide Cancel;
  }

  lemma {:induction false} InboxStays(rules: UrlRules, run: seq<Cluster>, i: nat, j: nat)
    requires IsHistory(rules, run) && i <= j < |run|
    ensures Remembers(run[i], run[j])
    decreases j
  {
    if i < j {
      InboxStays(rules, run, i, j - 1);
      hide Perform, EmptyStore;
      assert TransactionAt(rules, run, j);
      var action, now :| now >= run[j - 1].clock && run[j] == Perform(rules, run[j - 1], action, now);
      InboxStep(rules, run[j - 1], action, now);
    }
  }

  /** The command was taken: applied, or put aside as stale. */
  predicate TakenIn(outcome: Outcome) {
    outcome == Applied || outcome == IgnoredStale
  }

  /**
   * A scan command that was taken is a duplicate whenever it comes again; a
   * valid command under its identifier with another payload is a collision.
   * Neither changes anything but the clock.
   */
  lemma AcceptedOnce(rules: UrlRules, run: seq<Cluster>, i: nat, j: nat, m: Envelope, seed: Id, now: int, again: Envelope, seed': Id, later: int)
    requires IsHistory(rules, run) && i < j < |run|
    requires TakenIn(AcceptOutcome(rules, run[i], m)) && run[i + 1] == Perform(rules, run[i], Accept(m, seed), now)
    requires again.id == m.id && AcceptOutcome(rules, run[j], again) != Invalid
    ensures AcceptOutcome(rules, run[j], again) == if again.body == m.body then Duplicate else Collision
    ensures Perform(rules, run[j], Accept(again, seed'), later) == run[j].(clock := later)
  {
    hide IsHistory, NewExecution;
    InboxStays(rules, run, i + 1, j);
  }

  /** The same for a cancellation; both kinds of command share the inbox. */
  lemma CancelledOnce(rules: UrlRules, run: seq<Cluster>, i: nat, j: nat, m: Envelope, now: int, again: Envelope, later: int)
    requires IsHistory(rules, run) && i < j < |run|
    requires TakenIn(CancelOutcome(run[i], m)) && run[i + 1] == Perform(rules, run[i], CancelScan(m), now)
    requires again.id == m.id && again.body.CancelBody? && again.version >= 1
    ensures CancelOutcome(run[j], again) == if again.body == m.body then Duplicate else Collision
    ensures Perform(rules, run[j], CancelScan(again), later) == run[j].(clock := later)
  {
    hide IsHistory, Cancel;
    InboxStays(rules, run, i + 1, j);
  }

  // ------------------------------------------------------- one scan's command

  /** What a command has made of an execution, whatever has happened to it since. */
  ghost predicate BuiltFrom(rules: UrlRules, x: Execution, m: Envelope, now: int)
    requires m.body.ScanBody?
  {
    var c := m.body.command;
    && rules.normalize(c.targetUrl) == Some(x.seedUrl) && x.host == Lower(c.host)
    && x.maxPages == c.maxPages && x.maxDepth == c.maxDepth && x.maxConcurrency == c.maxConcurrency
    && x.deadline == now + 1000 * c.maxSeconds
    && x.commandVersion >= m.version
    && 1 <= x.maxPages <= 1_000_000 && x.maxDepth <= 10 && 1 <= x.maxConcurrency <= 10_000 && 1 <= c.maxSeconds <= 604_800
  }

  lemma NewBuilt(rules: UrlRules, s: Cluster, m: Envelope, seed: Id, now: int)
    requires AcceptOutcome(rules, s, m) == Applied
    ensures m.body.ScanBody? && m.body.scan !in s.executions
    ensures var r := AcceptEffect(rules, s, m, seed, now);
      && m.body.scan in r.executions && BuiltFrom(rules, r.executions[m.body.scan], m, now)
      && r.executions[m.body.scan].commandVersion == m.version && r.executions[m.body.scan].status == Queued
      && r.executions[m.body.scan].pages.Keys == {seed}
      && r.owners == s.owners[m.body.scan := m.body.owner]
      && forall scan :: scan in s.executions ==> scan in r.executions && r.executions[scan] == s.executions[scan]
  {}

  /** A command version never falls, and only a cancellation raises it. */
  lemma StepVersion(rules: UrlRules, x: Execution, step: Step, now: int)
    ensures Apply(rules, x, step, now).commandVersion ==
      if step.CancelStep? && Enabled(x, step, now) then step.version else x.commandVersion
  {
    hide Snapshot, Throttled;
    if Enabled(x, step, now) {
      match step
      case ReclaimStep(skipLeases, skipDeadline) => ReclaimVersion(x, skipLeases, skipDeadline, now);
      case CommitStep(p, _, _, result, ids, retryAt) => hide InsertPages, NewUrls, ShouldRetryPage;
      case _ =>
    }
  }

  lemma ReclaimVersion(x: Execution, skipLeases: bool, skipDeadline: bool, now: int)
    ensures Reclaim(x, skipLeases, skipDeadline, now).commandVersion == x.commandVersion
  {
    hide PublishProgress, ReclaimLeases, ReclaimDeadline;
    var a := ReclaimDeliveries(x, now);
    var b := if skipLeases then a else ReclaimLeases(a, now);
    var c := if skipDeadline then b else ReclaimDeadline(b, now);
    StatementsVersion(a, now);
    StatementsVersion(b, now);
    PublishVersion(Terminalize(c), now);
  }

  lemma StatementsVersion(x: Execution, now: int)
    ensures ReclaimLeases(x, now).commandVersion == x.commandVersion && ReclaimDeadline(x, now).commandVersion == x.commandVersion
  {
    hide ExpiredSet, SpentSet, WithStatus;
  }

  lemma PublishVersion(y: Execution, now: int)
    ensures PublishProgress(y, now).commandVersion == y.commandVersion
  {
    hide Snapshot, Throttled;
  }

  ghost predicate Goes(x: Execution, y: Execution) {
    SameCommand(x, y) && x.commandVersion <= y.commandVersion
  }

  lemma NextGoes(rules: UrlRules, x: Execution, y: Execution)
    requires Next(rules, x, y)
    ensures Goes(x, y)
  {
    hide Apply;
    var step, now :| y == Apply(rules, x, step, now);
    StepCommand(rules, x, step, now);
    StepVersion(rules, x, step, now);
  }

  lemma {:induction false} ScanGoes(rules: UrlRules, run: seq<Cluster>, i: nat, j: nat, scan: Id)
    requires IsHistory(rules, run) && i <= j < |run| && scan in run[i].executions
    ensures scan in run[j].executions && Goes(run[i].executions[scan], run[j].executions[scan])
    decreases j
  {
    if i < j {
      ScanGoes(rules, run, i, j - 1, scan);
      HistoryPrefix(rules, run, j + 1);
      hide IsHistory, New, Next;
      var part := run[..j + 1];
      assert part[..|part| - 1][|part| - 2] == run[j - 1];
      Stays(rules, part, scan);
      if run[j].executions[scan] != run[j - 1].executions[scan] {
        NextGoes(rules, run[j - 1].executions[scan], run[j].executions[scan]);
      }
    }
  }

  lemma BuiltGoes(rules: UrlRules, x: Execution, y: Execution, m: Envelope, now: int)
    requires m.body.ScanBody? && BuiltFrom(rules, x, m, now) && Goes(x, y)
    ensures BuiltFrom(rules, y, m, now)
  {}

  /** From its acceptance on a scan has the limits, the seed and the deadline of its command. */
  lemma AcceptedStays(rules: UrlRules, run: seq<Cluster>, i: nat, j: nat, m: Envelope, seed: Id, now: int)
    requires IsHistory(rules, run) && i < j < |run|
    requires AcceptOutcome(rules, run[i], m) == Applied && run[i + 1] == Perform(rules, run[i], Accept(m, seed), now)
    ensures m.body.ScanBody? && m.body.scan in run[j].executions && BuiltFrom(rules, run[j].executions[m.body.scan], m, now)
  {
    NewBuilt(rules, run[i], m, seed, now);
    hide IsHistory, AcceptEffect, AcceptOutcome, BuiltFrom;
    ScanGoes(rules, run, i + 1, j, m.body.scan);
    BuiltGoes(rules, run[i + 1].executions[m.body.scan], run[j].executions[m.body.scan], m, now);
  }

  /**
   * Another command for a scan that was accepted never starts it again. It is
   * put aside if it asks for the same URL under the version the scan stands at,
   * and conflicts otherwise.
   */
  lemma SecondCommand(rules: UrlRules, run: seq<Cluster>, i: nat, j: nat, m: Envelope, seed: Id, now: int, other: Envelope, seed': Id, later: int)
    requires IsHistory(rules, run) && i < j < |run|
    requires AcceptOutcome(rules, run[i], m) == Applied && run[i + 1] == Perform(rules, run[i], Accept(m, seed), now)
    requires other.body.ScanBody? && other.body.scan == m.body.scan
    requires other.id !in run[j].inbox && AcceptOutcome(rules, run[j], other) != Invalid
    ensures m.body.scan in run[j].executions
    ensures var version := run[j].executions[m.body.scan].commandVersion;
      && version >= m.version
      && AcceptOutcome(rules, run[j], other) ==
           (if other.version == version && rules.normalize(other.body.command.targetUrl) == rules.normalize(m.body.command.targetUrl)
            then IgnoredStale else Conflict)
    ensures Perform(rules, run[j], Accept(other, seed'), later).executions == run[j].executions
    ensures Perform(rules, run[j], Accept(other, seed'), later).slots == run[j].slots
  {
    AcceptedStays(rules, run, i, j, m, seed, now);
    hide IsHistory, NewExecution, ValidCommand;
  }

  /** In every reachable store each host of a scan has its slots, as many as the host concurrency. */
  lemma SlotsStay(rules: UrlRules, run: seq<Cluster>, scan: Id, n: nat)
    requires IsHistory(rules, run) && scan in Final(run).executions && 1 <= n <= Final(run).hostConcurrency
    ensures (Final(run).executions[scan].host, n) in Final(run).slots
  {
    hide IsHistory, AllValid;
    HistoryBegins(rules, run);
    HistoryOk(rules, run);
    assert L.HostOk(View(Final(run)), scan, n);
  }

  lemma HistoryBegins(rules: UrlRules, run: seq<Cluster>)
    requires IsHistory(rules, run)
    ensures |run| > 0
  {}

  /** A scan of a new host can begin at once: its seed may be claimed on every slot from the time of its acceptance on. */
  lemma SeedClaimable(rules: UrlRules, s: Cluster, m: Envelope, seed: Id, now: int, n: nat, owner: Id)
    requires AcceptOutcome(rules, s, m) == Applied && 1 <= n <= s.hostConcurrency && owner !in s.issued
    requires forall k: L.SlotKey :: k in s.slots ==> k.0 != Lower(m.body.command.host)
    ensures CanClaim(Perform(rules, s, Accept(m, seed), now), m.body.scan, seed, n, owner, now)
  {
    var r := Perform(rules, s, Accept(m, seed), now);
    var k: L.SlotKey := (Lower(m.body.command.host), n);
    assert r.slots == L.FreshSlots(s.slots, Lower(m.body.command.host), s.hostConcurrency, now);
    assert k in r.slots && r.slots[k] == L.Slot(None, 0, now, []);
  }

  /**
   * Nothing else holds a claim back: if a page waits and is due, before the
   * deadline and within the concurrency, and a slot of its host may be visited
   * again and is free or was held too long, a claim under a fresh owner gets
   * both rows.
   */
  lemma ClaimGranted(rules: UrlRules, s: Cluster, scan: Id, p: Id, n: nat, owner: Id, until: int, now: int)
    requires scan in s.executions && p in s.executions[scan].pages && owner !in s.issued && 1 <= n <= s.hostConcurrency
    requires var x := s.executions[scan];
      && (x.status == Queued || x.status == Running) && x.counts.leased < x.maxConcurrency && now < x.deadline
      && x.pages[p].status == PageQueued && x.pages[p].availableAt <= now
      && (x.host, n) in s.slots
      && var slot := s.slots[(x.host, n)];
         slot.nextAllowedAt <= now && forall lease :: slot.lease == Some(lease) ==> lease.expiresAt <= now
    ensures var r, k := Perform(rules, s, Claim(scan, p, n, owner, until), now), (s.executions[scan].host, n);
      && scan in r.executions && p in r.executions[scan].pages && k in r.slots
      && r.executions[scan].pages[p].status == PageLeased && r.executions[scan].pages[p].lease == Some(Lease(owner, until))
      && r.slots[k].lease == Some(Lease(owner, until)) && r.slots[k].nextAllowedAt == now + s.hostDelay
      && owner in r.issued
  {
    var x := s.executions[scan];
    ClaimedPage(x, p, owner, until, now);
    hide ClaimPage;
  }

  lemma ClaimedPage(x: Execution, p: Id, owner: Id, until: int, now: int)
    requires p in x.pages
    ensures var y := ClaimPage(x, p, owner, until, now);
      p in y.pages && y.pages[p].status == PageLeased && y.pages[p].lease == Some(Lease(owner, until))
  {
    hide Snapshot, Throttled;
  }

  // ------------------------------------------------------------ cancellations

  /**
   * A cancellation for its scan and owner under a new identifier is applied
   * exactly if the scan has not ended and no command of this version or a
   * higher one was applied; it is stale otherwise. Any other is not ready.
   */
  lemma CancelAnswered(s: Cluster, m: Envelope, now: int)
    requires m.body.CancelBody? && m.version >= 1 && m.id !in s.inbox
    ensures var known := m.body.scan in s.executions && m.body.scan in s.owners && s.owners[m.body.scan] == m.body.owner;
      && (CancelOutcome(s, m) == NotReady <==> !known)
      && (known ==>
            var x := s.executions[m.body.scan];
            && (CancelOutcome(s, m) == Applied <==> !Terminal(x.status) && x.commandVersion < m.version)
            && (CancelOutcome(s, m) == IgnoredStale <==> Terminal(x.status) || m.version <= x.commandVersion))
    ensures CancelOutcome(s, m) == Applied ==>
      var x := CancelEffect(s, m, now).executions[m.body.scan];
      Cancelling(x) && x.commandVersion == m.version
    ensures CancelOutcome(s, m) != Applied ==>
      CancelEffect(s, m, now).executions == s.executions && CancelEffect(s, m, now).slots == s.slots
  {
    if CancelOutcome(s, m) == Applied {
      CancelVersion(s.executions[m.body.scan], m.version, now);
    }
    hide Cancel;
  }

  lemma CancelVersion(x: Execution, version: int, now: int)
    ensures Cancelling(Cancel(x, version, now)) && Cancel(x, version, now).commandVersion == version
  {
    hide Snapshot, Throttled;
  }

  /** Once a cancellation was applied, no cancellation of its version or a lower one is ever applied again. */
  lemma OlderIsStale(rules: UrlRules, run: seq<Cluster>, i: nat, j: nat, m: Envelope, now: int, other: Envelope)
    requires IsHistory(rules, run) && i < j < |run|
    requires CancelOutcome(run[i], m) == Applied && run[i + 1] == Perform(rules, run[i], CancelScan(m), now)
    requires other.body.CancelBody? && other.body.scan == m.body.scan && other.version <= m.version
    ensures CancelOutcome(run[j], other) != Applied
    ensures m.body.scan in run[j].executions && Cancelling(run[j].executions[m.body.scan])
  {
    CancelVersion(run[i].executions[m.body.scan], m.version, now);
    assert run[i + 1].executions == run[i].executions[m.body.scan := Cancel(run[i].executions[m.body.scan], m.version, now)];
    hide IsHistory, Cancel, CancelEffect;
    ScanGoes(rules, run, i + 1, j, m.body.scan);
    CancellationInStore(rules, run, m.body.scan, i + 1, j);
  }
}
