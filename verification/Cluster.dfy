/** The whole store: every execution, the host slots, the command inbox and one clock. */
module Cluster {
  import opened Common
  import opened Frontier
  import opened EventLane
  import opened PageHolds
  import L = Ledger

  /** What the payload hash of a command covers. SHA-256 is taken to be injective. */
  datatype Body =
    | ScanBody(scan: Id, owner: Id, command: ScanCommand)
    | CancelBody(scan: Id, owner: Id)

  /** A command message. The aggregate version is not part of the hashed payload. */
  datatype Envelope = Envelope(id: Id, version: int, body: Body)

  datatype Outcome = Applied | Duplicate | IgnoredStale | Collision | Conflict | NotReady | Invalid | StaleLease | NothingToClaim

  datatype Cluster = Cluster(
    hostConcurrency: nat, hostDelay: nat, clock: int,
    executions: map<Id, Execution>, owners: map<Id, Id>,
    slots: map<L.SlotKey, L.Slot>, issued: map<Id, L.Token>, inbox: map<Id, Body>)

  datatype Action =
    | Accept(m: Envelope, seed: Id)
    | CancelScan(m: Envelope)
    | Claim(scan: Id, page: Id, slotNo: nat, owner: Id, until: int)
    | Extend(owner: Id, token: L.Token, until: int)
    | Commit(owner: Id, token: L.Token, result: PageResult, ids: seq<Id>, retryAt: int)
    | Sweep(skipLeases: set<Id>, skipDeadline: set<Id>)
    | Deliver(scan: Id, step: Step)

  /** What every transaction leaves alone, and the clock it runs at. */
  predicate SameSettings(s: Cluster, r: Cluster, now: int) {
    r.clock == now && r.hostConcurrency == s.hostConcurrency && r.hostDelay == s.hostDelay
  }

  // ---------------------------------------------------------------- commands

  function TargetUrl(rules: UrlRules, m: Envelope): Option<string> {
    if m.body.ScanBody? then rules.normalize(m.body.command.targetUrl) else None
  }

  /** AcceptCommand: the command that a new execution is built from. */
  function Accepted(m: Envelope): ScanCommand
    requires m.body.ScanBody?
  {
    m.body.command.(host := Lower(m.body.command.host), version := m.version)
  }

  function AcceptOutcome(rules: UrlRules, s: Cluster, m: Envelope): Outcome {
    if TargetUrl(rules, m).None? || !ValidCommand(Accepted(m)) then Invalid
    else if m.id in s.inbox then (if s.inbox[m.id] == m.body then Duplicate else Collision)
    else if m.body.scan in s.executions then
      if s.executions[m.body.scan].commandVersion != m.version
         || s.executions[m.body.scan].seedUrl != TargetUrl(rules, m).value then Conflict
      else IgnoredStale
    else Applied
  }

  function AcceptEffect(rules: UrlRules, s: Cluster, m: Envelope, seed: Id, now: int): (r: Cluster)
    ensures SameSettings(s, r, now)
  {
    match AcceptOutcome(rules, s, m)
    case IgnoredStale => s.(clock := now, inbox := s.inbox[m.id := m.body])
    case Applied =>
      var command := Accepted(m);
      s.(clock := now,
         executions := s.executions[m.body.scan := NewExecution(command, TargetUrl(rules, m).value, seed, now)],
         owners := s.owners[m.body.scan := m.body.owner],
         slots := L.FreshSlots(s.slots, command.host, s.hostConcurrency, now),
         inbox := s.inbox[m.id := m.body])
    case _ => s.(clock := now)
  }

  function CancelOutcome(s: Cluster, m: Envelope): Outcome {
    if !m.body.CancelBody? || m.version < 1 then Invalid
    else if m.id in s.inbox then (if s.inbox[m.id] == m.body then Duplicate else Collision)
    else if m.body.scan !in s.executions || m.body.scan !in s.owners || s.owners[m.body.scan] != m.body.owner then NotReady
    else if m.version <= s.executions[m.body.scan].commandVersion || Terminal(s.executions[m.body.scan].status) then IgnoredStale
    else Applied
  }

  /** The owners of the page leases a cancellation ends. */
  function LeaseOwners(x: Execution): set<Id> {
    set p | p in x.pages && x.pages[p].status == PageLeased && x.pages[p].lease.Some? :: x.pages[p].lease.value.owner
  }

  function CancelEffect(s: Cluster, m: Envelope, now: int): (r: Cluster)
    ensures SameSettings(s, r, now)
  {
    match CancelOutcome(s, m)
    case IgnoredStale => s.(clock := now, inbox := s.inbox[m.id := m.body])
    case Applied =>
      var x := s.executions[m.body.scan];
      s.(clock := now,
         executions := s.executions[m.body.scan := Cancel(x, m.version, now)],
         slots := L.ReleasedSlots(s.slots, x.host, LeaseOwners(x)),
         inbox := s.inbox[m.id := m.body])
    case _ => s.(clock := now)
  }

  // ------------------------------------------------------------- page leases

  predicate CanClaim(s: Cluster, scan: Id, p: Id, slotNo: nat, owner: Id, now: int) {
    && owner !in s.issued
    && scan in s.executions
    && Claimable(s.executions[scan], p, now)
    && 1 <= slotNo <= s.hostConcurrency
    && (s.executions[scan].host, slotNo) in s.slots
    && L.SlotFree(s.slots[(s.executions[scan].host, slotNo)], now)
  }

  /** The page lease that ClaimPage returns. */
  function GrantedToken(s: Cluster, scan: Id, p: Id, slotNo: nat): L.Token
    requires scan in s.executions && p in s.executions[scan].pages && (s.executions[scan].host, slotNo) in s.slots
  {
    var x := s.executions[scan];
    L.Token(scan, p, x.pages[p].generation + 1, (x.host, slotNo), s.slots[(x.host, slotNo)].generation + 1)
  }

  function ClaimEffect(s: Cluster, scan: Id, p: Id, slotNo: nat, owner: Id, until: int, now: int): (r: Cluster)
    ensures SameSettings(s, r, now)
  {
    if !CanClaim(s, scan, p, slotNo, owner, now) then s.(clock := now)
    else
      var token := GrantedToken(s, scan, p, slotNo);
      s.(clock := now,
         executions := s.executions[scan := ClaimPage(s.executions[scan], p, owner, until, now)],
         slots := s.slots[token.slot := L.ClaimedSlot(s.slots[token.slot], owner, until, s.hostDelay, now)],
         issued := s.issued[owner := token])
  }

  /** The two row counts of ExtendPageLease and CommitPageResult: page row and slot row still carry the lease. */
  predicate StillHolds(s: Cluster, owner: Id, t: L.Token) {
    && t.scan in s.executions
    && HoldsLease(s.executions[t.scan], t.page, owner, t.pageGeneration)
    && L.HoldsSlot(s.slots, owner, t)
  }

  function ExtendEffect(s: Cluster, owner: Id, t: L.Token, until: int, now: int): (r: Cluster)
    ensures SameSettings(s, r, now)
  {
    if !StillHolds(s, owner, t) then s.(clock := now)
    else
      s.(clock := now,
         executions := s.executions[t.scan := ExtendLease(s.executions[t.scan], t.page, until)],
         slots := s.slots[t.slot := s.slots[t.slot].(lease := Some(Lease(owner, until)))])
  }

  ghost predicate UsableIds(s: Cluster, t: L.Token, result: PageResult, ids: seq<Id>)
    requires t.scan in s.executions
  {
    |result.links| <= |ids| && FreshIds(s.executions[t.scan].pages, ids)
  }

  ghost function CommitEffect(rules: UrlRules, s: Cluster, owner: Id, t: L.Token, result: PageResult, ids: seq<Id>, retryAt: int, now: int): (r: Cluster)
    ensures SameSettings(s, r, now)
  {
    if !StillHolds(s, owner, t) || !Storable(s.executions[t.scan], t.page, result) || !UsableIds(s, t, result, ids) then s.(clock := now)
    else
      s.(clock := now,
         executions := s.executions[t.scan := CommitResult(rules, s.executions[t.scan], t.page, result, ids, retryAt, now)],
         slots := s.slots[t.slot := L.Released(s.slots[t.slot])])
  }

  function SweepEffect(s: Cluster, skipLeases: set<Id>, skipDeadline: set<Id>, now: int): (r: Cluster)
    ensures SameSettings(s, r, now)
  {
    s.(clock := now,
       executions := map scan | scan in s.executions ::
         Reclaim(s.executions[scan], scan in skipLeases, scan in skipDeadline, now),
       slots := L.SweptSlots(s.slots, now))
  }

  // ---------------------------------------------------------------- outboxes

  predicate IsDelivery(step: Step) {
    || step.ClaimBatchStep? || step.RetryBatchStep? || step.AnalyticsStep?
    || step.ClaimEventStep? || step.CompleteEventStep? || step.RetryEventStep?
  }

  ghost function DeliverEffect(rules: UrlRules, s: Cluster, scan: Id, step: Step, now: int): (r: Cluster)
    ensures SameSettings(s, r, now)
  {
    if scan !in s.executions || !IsDelivery(step) then s.(clock := now)
    else s.(clock := now, executions := s.executions[scan := Apply(rules, s.executions[scan], step, now)])
  }

  // -------------------------------------------------------------------- runs

  ghost function Perform(rules: UrlRules, s: Cluster, action: Action, now: int): Cluster {
    match action
    case Accept(m, seed) => AcceptEffect(rules, s, m, seed, now)
    case CancelScan(m) => CancelEffect(s, m, now)
    case Claim(scan, p, slotNo, owner, until) => ClaimEffect(s, scan, p, slotNo, owner, until, now)
    case Extend(owner, token, until) => ExtendEffect(s, owner, token, until, now)
    case Commit(owner, token, result, ids, retryAt) => CommitEffect(rules, s, owner, token, result, ids, retryAt, now)
    case Sweep(skipLeases, skipDeadline) => SweepEffect(s, skipLeases, skipDeadline, now)
    case Deliver(scan, step) => DeliverEffect(rules, s, scan, step, now)
  }

  /** One committed transaction; the clock never goes back. */
  ghost predicate Transaction(rules: UrlRules, s: Cluster, r: Cluster) {
    exists action, now :: now >= s.clock && r == Perform(rules, s, action, now)
  }

  ghost predicate TransactionAt(rules: UrlRules, run: seq<Cluster>, i: nat)
    requires 0 < i < |run|
  {
    Transaction(rules, run[i - 1], run[i])
  }

  ghost predicate EmptyStore(s: Cluster) {
    s.executions == map[] && s.owners == map[] && s.slots == map[] && s.issued == map[] && s.inbox == map[]
  }

  /** Successive states of a store that starts empty. */
  ghost predicate IsHistory(rules: UrlRules, run: seq<Cluster>) {
    && |run| > 0 && EmptyStore(run[0])
    && forall i {:trigger TransactionAt(rules, run, i)} :: 0 < i < |run| ==> TransactionAt(rules, run, i)
  }

  ghost function Final(run: seq<Cluster>): Cluster
    requires |run| > 0
  {
    run[|run| - 1]
  }

  lemma HistoryPrefix(rules: UrlRules, run: seq<Cluster>, n: nat)
    requires IsHistory(rules, run) && 0 < n <= |run|
    ensures IsHistory(rules, run[..n])
  {
    hide Transaction;
    var init := run[..n];
    forall i | 0 < i < n ensures TransactionAt(rules, init, i) {
      assert TransactionAt(rules, run, i);
    }
  }

  lemma HistoryStep(rules: UrlRules, run: seq<Cluster>)
    requires IsHistory(rules, run) && |run| > 1
    ensures IsHistory(rules, run[..|run| - 1])
    ensures Transaction(rules, Final(run[..|run| - 1]), Final(run))
  {
    hide Transaction;
    HistoryPrefix(rules, run, |run| - 1);
    assert TransactionAt(rules, run, |run| - 1);
  }

  // --------------------------------------------------------------- invariant

  ghost predicate AllValid(rules: UrlRules, executions: map<Id, Execution>) {
    forall scan {:trigger executions[scan]} :: scan in executions ==> Valid(rules, executions[scan])
  }

  ghost function HostsOf(executions: map<Id, Execution>): map<Id, string> {
    map scan | scan in executions :: executions[scan].host
  }

  ghost function HoldsOf(executions: map<Id, Execution>): map<Id, map<Id, Hold>> {
    map scan | scan in executions :: Holds(executions[scan])
  }

  /** The lease ledger of a store. */
  ghost function View(s: Cluster): L.Ledger {
    L.Ledger(s.hostConcurrency, s.clock, HostsOf(s.executions), HoldsOf(s.executions), s.slots, s.issued)
  }

  ghost predicate ClusterOk(rules: UrlRules, s: Cluster) {
    AllValid(rules, s.executions) && L.LedgerOk(View(s))
  }
}
