/** What the host slots guarantee in every state of the store. */
module HostSafety {
  import opened Common
  import opened Frontier
  import opened FrontierInvariant
  import opened EventLane
  import opened PageHolds
  import opened Cluster
  import opened ClusterInvariant
  import L = Ledger

  ghost predicate LeasedTo(s: Cluster, scan: Id, p: Id, lease: Lease) {
    && scan in s.executions && p in s.executions[scan].pages
    && s.executions[scan].pages[p].status == PageLeased && s.executions[scan].pages[p].lease == Some(lease)
  }

  lemma LeasedToHold(s: Cluster, scan: Id, p: Id, lease: Lease)
    ensures LeasedTo(s, scan, p, lease) <==>
      scan in View(s).holds && p in View(s).holds[scan] && View(s).holds[scan][p].lease == lease
  {}

  /** No two pages are leased under one owner. */
  lemma OwnersInjective(rules: UrlRules, run: seq<Cluster>, scan: Id, p: Id, scan': Id, p': Id, a: Lease, b: Lease)
    requires IsHistory(rules, run)
    requires LeasedTo(Final(run), scan, p, a) && LeasedTo(Final(run), scan', p', b) && a.owner == b.owner
    ensures scan == scan' && p == p'
  {
    var s := Final(run);
    HistoryOk(rules, run);
    hide IsHistory, AllValid;
    LeasedToHold(s, scan, p, a);
    LeasedToHold(s, scan', p', b);
    assert L.HoldOk(View(s), scan, p) && L.HoldOk(View(s), scan', p');
  }

  /** An owned slot is owned through exactly one page, leased to the same owner until the same time. */
  lemma SlotMatchesPage(rules: UrlRules, run: seq<Cluster>, k: L.SlotKey)
    requires IsHistory(rules, run)
    requires k in Final(run).slots && Final(run).slots[k].lease.Some?
    ensures exists scan, p :: LeasedTo(Final(run), scan, p, Final(run).slots[k].lease.value)
    ensures forall j :: j in Final(run).slots && Final(run).slots[j].lease == Final(run).slots[k].lease ==> j == k
  {
    var s := Final(run);
    var lease := s.slots[k].lease.value;
    HistoryOk(rules, run);
    hide IsHistory, AllValid;
    assert L.SlotOk(View(s), k);
    var t := s.issued[lease.owner];
    LeasedToHold(s, t.scan, t.page, lease);
    forall j | j in s.slots && s.slots[j].lease == s.slots[k].lease ensures j == k {
      assert L.SlotOk(View(s), j);
    }
  }

  ghost predicate IsFetched(s: Cluster, host: string, scan: Id, p: Id) {
    && scan in s.executions && s.executions[scan].host == host && p in s.executions[scan].pages
    && IsHeld(s.executions[scan].pages[p]) && s.executions[scan].pages[p].lease.value.expiresAt > s.clock
  }

  /** The pages of a host whose leases have not run out. */
  ghost function Fetching(s: Cluster, host: string): set<(Id, Id)> {
    set scan, p | scan in s.executions && p in s.executions[scan].pages && IsFetched(s, host, scan, p) :: (scan, p)
  }

  lemma FetchedView(s: Cluster, host: string, scan: Id, p: Id)
    ensures var l := View(s); IsFetched(s, host, scan, p) <==>
      scan in l.holds && scan in l.hosts && l.hosts[scan] == host
      && p in l.holds[scan] && l.holds[scan][p].lease.expiresAt > l.clock
  {}

  lemma FetchingView(s: Cluster, host: string)
    ensures Fetching(s, host) == L.Running(View(s), host)
  {
    hide View, IsHeld;
    forall scan: Id, p: Id ensures (scan, p) in Fetching(s, host) <==> (scan, p) in L.Running(View(s), host) {
      FetchedView(s, host, scan, p);
    }
  }

  /** At most hostConcurrency pages of a host hold a lease that has not run out. */
  lemma HostConcurrency(rules: UrlRules, run: seq<Cluster>, host: string)
    requires IsHistory(rules, run)
    ensures |Fetching(Final(run), host)| <= run[0].hostConcurrency
  {
    var s := Final(run);
    HistoryOk(rules, run);
    FetchingView(s, host);
    hide IsHistory, AllValid, L.LedgerOk, Fetching, L.Running;
    L.RunningBound(View(s), host);
  }

  /** A worker whose lease has not run out is never refused: both of its row updates find their row. */
  lemma LiveLeaseNeverStale(rules: UrlRules, run: seq<Cluster>, scan: Id, p: Id, lease: Lease)
    requires IsHistory(rules, run) && LeasedTo(Final(run), scan, p, lease) && lease.expiresAt > Final(run).clock
    ensures var s := Final(run);
      && lease.owner in s.issued && StillHolds(s, lease.owner, s.issued[lease.owner])
      && s.issued[lease.owner].scan == scan && s.issued[lease.owner].page == p
  {
    var s := Final(run);
    HistoryOk(rules, run);
    hide IsHistory, AllValid;
    LeasedToHold(s, scan, p, lease);
    assert L.HoldOk(View(s), scan, p);
    L.RunningLeaseHolds(View(s), scan, p);
    StillHoldsView(s, lease.owner, s.issued[lease.owner]);
  }

  /** A page lease that passes both row counts is the one ClaimPage returned under that owner. */
  lemma OnlyIssuedLeasesPass(rules: UrlRules, run: seq<Cluster>, owner: Id, t: L.Token)
    requires IsHistory(rules, run) && StillHolds(Final(run), owner, t)
    ensures owner in Final(run).issued && Final(run).issued[owner] == t
  {
    HistoryOk(rules, run);
    hide IsHistory, AllValid, L.LedgerOk;
    StillHoldsView(Final(run), owner, t);
    L.OnlyTheIssued(View(Final(run)), owner, t);
  }

  /** The slots a cancellation takes back. */
  ghost function ReleasedBy(s: Cluster, m: Envelope): set<L.SlotKey>
    requires CancelOutcome(s, m) == Applied
  {
    var x := s.executions[m.body.scan];
    set k | k in s.slots && k.0 == x.host && L.OwnedBy(s.slots[k], LeaseOwners(x))
  }

  lemma LeasedSet(x: Execution)
    requires PagesOk(x)
    ensures Holds(x).Keys == WithStatus(x.pages, PageLeased)
  {
    forall p | p in x.pages ensures p in Holds(x) <==> x.pages[p].status == PageLeased {
      assert PageOk(x.pages[p], x.host);
    }
  }

  /** The guard "released more host leases than page leases cancelled" never fires. */
  lemma ReleasedWithinCancelled(rules: UrlRules, run: seq<Cluster>, m: Envelope)
    requires IsHistory(rules, run) && CancelOutcome(Final(run), m) == Applied
    ensures |ReleasedBy(Final(run), m)| <= |WithStatus(Final(run).executions[m.body.scan].pages, PageLeased)|
  {
    var s := Final(run);
    var scan := m.body.scan;
    HistoryOk(rules, run);
    assert Valid(rules, s.executions[scan]);
    assert PagesOk(s.executions[scan]);
    hide IsHistory, AllValid, L.LedgerOk, Valid, PagesOk, Holds;
    L.GivenBackBound(View(s), scan);
    OwnersView(s.executions[scan]);
    assert ReleasedBy(s, m) == L.GivenBack(View(s), scan);
    LeasedSet(s.executions[scan]);
  }

  /** What a reclamation leaves: no slot is owned past its time, and no page is leased past its time unless its scan was locked. */
  lemma SweepTakesBack(s: Cluster, skipLeases: set<Id>, skipDeadline: set<Id>, now: int)
    ensures var r := SweepEffect(s, skipLeases, skipDeadline, now);
      && (forall k :: k in r.slots && r.slots[k].lease.Some? ==> r.slots[k].lease.value.expiresAt > now)
      && (forall scan, p :: scan in r.executions && scan !in skipLeases && p in r.executions[scan].pages ==>
            !PageExpired(r.executions[scan].pages[p], now))
  {
    hide Reclaim, PageExpired;
    var r := SweepEffect(s, skipLeases, skipDeadline, now);
    forall scan, p | scan in r.executions && scan !in skipLeases && p in r.executions[scan].pages
      ensures !PageExpired(r.executions[scan].pages[p], now)
    {
      NotExpired(s.executions[scan], scan in skipDeadline, p, now);
    }
  }

  lemma NotExpired(x: Execution, skipDeadline: bool, p: Id, now: int)
    ensures var y := Reclaim(x, false, skipDeadline, now); p in y.pages ==> !PageExpired(y.pages[p], now)
  {
    hide ReclaimDeliveries, ReclaimLeases, ReclaimDeadline, PageExpired, Snapshot, Throttled;
    var b := ReclaimLeases(ReclaimDeliveries(x, now), now);
    LeasesTaken(ReclaimDeliveries(x, now), now);
    StillTaken(b, p, now);
  }

  lemma StillTaken(x: Execution, p: Id, now: int)
    requires p in x.pages ==> !PageExpired(x.pages[p], now)
    ensures p in ReclaimDeadline(x, now).pages ==> !PageExpired(ReclaimDeadline(x, now).pages[p], now)
  {}

  lemma LeasesTaken(x: Execution, now: int)
    ensures forall p :: p in ReclaimLeases(x, now).pages ==> !PageExpired(ReclaimLeases(x, now).pages[p], now)
  {
    if ExpiredSet(x, now) == {} {
      forall p | p in x.pages ensures !PageExpired(x.pages[p], now) {
        assert p !in ExpiredSet(x, now);
      }
    }
  }
}
