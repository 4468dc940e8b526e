/**
 * The tie between page leases and host slots, apart from everything else an
 * execution holds: who holds which page of which scan, and which slot.
 */
module Ledger {
  import opened Common
  import opened PageHolds

  /** A host and a slot number from 1 to the host concurrency. */
  type SlotKey = (string, nat)

  /** A row of host_leases. `claims` records the times it was claimed at. */
  datatype Slot = Slot(lease: Option<Lease>, generation: nat, nextAllowedAt: int, claims: seq<int>)

  /** The lease handed to a worker, under a fresh owner. */
  datatype Token = Token(scan: Id, page: Id, pageGeneration: nat, slot: SlotKey, slotGeneration: nat)

  datatype Ledger = Ledger(
    limit: nat, clock: int, hosts: map<Id, string>, holds: map<Id, map<Id, Hold>>,
    slots: map<SlotKey, Slot>, issued: map<Id, Token>)

  // ------------------------------------------------------------------- slots

  function FreshSlots(slots: map<SlotKey, Slot>, host: string, limit: nat, now: int): map<SlotKey, Slot> {
    (map n | 1 <= n <= limit :: (host, n) := Slot(None, 0, now, [])) + slots
  }

  predicate SlotFree(slot: Slot, now: int) {
    slot.nextAllowedAt <= now && (slot.lease.None? || slot.lease.value.expiresAt <= now)
  }

  function ClaimedSlot(slot: Slot, owner: Id, until: int, hostDelay: nat, now: int): Slot {
    Slot(Some(Lease(owner, until)), slot.generation + 1, now + hostDelay, slot.claims + [now])
  }

  predicate HoldsSlot(slots: map<SlotKey, Slot>, owner: Id, token: Token) {
    && token.slot in slots
    && slots[token.slot].lease.Some?
    && slots[token.slot].lease.value.owner == owner
    && slots[token.slot].generation == token.slotGeneration
  }

  function Released(slot: Slot): Slot {
    slot.(lease := None)
  }

  function SweptSlot(slot: Slot, now: int): Slot {
    if slot.lease.Some? && slot.lease.value.expiresAt <= now then Released(slot) else slot
  }

  function SweptSlots(slots: map<SlotKey, Slot>, now: int): map<SlotKey, Slot> {
    map k | k in slots :: SweptSlot(slots[k], now)
  }

  predicate OwnedBy(slot: Slot, owners: set<Id>) {
    slot.lease.Some? && slot.lease.value.owner in owners
  }

  /** The slots of a host whose owners are among `owners` are given back. */
  function ReleasedSlots(slots: map<SlotKey, Slot>, host: string, owners: set<Id>): map<SlotKey, Slot> {
    map k | k in slots :: if k.0 == host && OwnedBy(slots[k], owners) then Released(slots[k]) else slots[k]
  }

  // --------------------------------------------------------------- invariant

  ghost function Owners(holds: map<Id, Hold>): set<Id> {
    set p | p in holds :: holds[p].lease.owner
  }

  ghost predicate TokenOk(l: Ledger, o: Id) {
    o in l.issued ==>
      var t := l.issued[o];
      && t.scan in l.hosts
      && t.slot.0 == l.hosts[t.scan] && 1 <= t.slot.1 <= l.limit
      && t.slot in l.slots
  }

  /** An owned slot has its page: leased, to the same owner, until the same time. */
  ghost predicate SlotOk(l: Ledger, k: SlotKey) {
    k in l.slots && l.slots[k].lease.Some? ==>
      var lease := l.slots[k].lease.value;
      && lease.owner in l.issued
      && var t := l.issued[lease.owner];
         && t.slot == k && t.slotGeneration == l.slots[k].generation
         && t.scan in l.holds && t.page in l.holds[t.scan]
         && l.holds[t.scan][t.page] == Hold(lease, t.pageGeneration)
  }

  /** A leased page has its token, and its slot as long as the lease runs. */
  ghost predicate HoldOk(l: Ledger, scan: Id, p: Id) {
    scan in l.holds && p in l.holds[scan] ==>
      var h := l.holds[scan][p];
      && h.lease.owner in l.issued
      && var t := l.issued[h.lease.owner];
         && t.scan == scan && t.page == p && t.pageGeneration == h.generation
         && (h.lease.expiresAt > l.clock ==> t.slot in l.slots && l.slots[t.slot].lease == Some(h.lease))
  }

  /** Every host of a scan has its slots. */
  ghost predicate HostOk(l: Ledger, scan: Id, n: nat) {
    scan in l.hosts && 1 <= n <= l.limit ==> (l.hosts[scan], n) in l.slots
  }

  ghost predicate LedgerOk(l: Ledger) {
    && l.hosts.Keys == l.holds.Keys
    && (forall scan, n {:trigger HostOk(l, scan, n)} :: HostOk(l, scan, n))
    && (forall o {:trigger TokenOk(l, o)} :: TokenOk(l, o))
    && (forall k {:trigger SlotOk(l, k)} :: SlotOk(l, k))
    && (forall scan, p {:trigger HoldOk(l, scan, p)} :: HoldOk(l, scan, p))
  }

  // -------------------------------------------------------------- operations

  ghost function Open(l: Ledger, scan: Id, host: string, now: int): Ledger {
    l.(clock := now, hosts := l.hosts[scan := host], holds := l.holds[scan := map[]],
       slots := FreshSlots(l.slots, host, l.limit, now))
  }

  ghost function WithHold(holds: map<Id, Hold>, p: Id, hold: Hold): map<Id, Hold> {
    holds[p := hold]
  }

  ghost function Grant(l: Ledger, owner: Id, token: Token, until: int, hostDelay: nat, now: int): Ledger
    requires token.scan in l.holds && token.slot in l.slots
  {
    l.(clock := now,
       holds := l.holds[token.scan := WithHold(l.holds[token.scan], token.page, Hold(Lease(owner, until), token.pageGeneration))],
       slots := l.slots[token.slot := ClaimedSlot(l.slots[token.slot], owner, until, hostDelay, now)],
       issued := l.issued[owner := token])
  }

  ghost function Extend(l: Ledger, owner: Id, t: Token, until: int, now: int): Ledger
    requires t.scan in l.holds && t.slot in l.slots
  {
    l.(clock := now,
       holds := l.holds[t.scan := WithHold(l.holds[t.scan], t.page, Hold(Lease(owner, until), t.pageGeneration))],
       slots := l.slots[t.slot := l.slots[t.slot].(lease := Some(Lease(owner, until)))])
  }

  ghost function Release(l: Ledger, owner: Id, t: Token, now: int): Ledger
    requires t.scan in l.holds && t.slot in l.slots
  {
    l.(clock := now,
       holds := l.holds[t.scan := l.holds[t.scan] - {t.page}],
       slots := l.slots[t.slot := Released(l.slots[t.slot])])
  }

  ghost function CancelAll(l: Ledger, scan: Id, now: int): Ledger
    requires scan in l.holds && scan in l.hosts
  {
    l.(clock := now, holds := l.holds[scan := map[]],
       slots := ReleasedSlots(l.slots, l.hosts[scan], Owners(l.holds[scan])))
  }

  /** Leases run out, except in the scans another transaction has locked; slots run out everywhere. */
  ghost function Sweep(l: Ledger, skipped: set<Id>, now: int): Ledger {
    l.(clock := now,
       holds := map scan | scan in l.holds ::
         if scan in skipped then l.holds[scan] else Unexpired(l.holds[scan], now),
       slots := SweptSlots(l.slots, now))
  }

  ghost function Wait(l: Ledger, now: int): Ledger {
    l.(clock := now)
  }

  ghost predicate Grantable(l: Ledger, owner: Id, token: Token, now: int) {
    && owner !in l.issued
    && token.scan in l.holds && token.scan in l.hosts && token.page !in l.holds[token.scan]
    && token.slot in l.slots && token.slot.0 == l.hosts[token.scan] && 1 <= token.slot.1 <= l.limit
    && SlotFree(l.slots[token.slot], now)
    && token.slotGeneration == l.slots[token.slot].generation + 1
  }

  /** The two row counts that extend and commit insist on, for the lease a worker presents. */
  ghost predicate Holding(l: Ledger, owner: Id, t: Token) {
    && t.scan in l.holds && t.page in l.holds[t.scan]
    && l.holds[t.scan][t.page].lease.owner == owner && l.holds[t.scan][t.page].generation == t.pageGeneration
    && HoldsSlot(l.slots, owner, t)
  }

  /** A lease that passes is the one that was issued: nothing else ever passes. */
  lemma OnlyTheIssued(l: Ledger, owner: Id, t: Token)
    requires LedgerOk(l) && Holding(l, owner, t)
    ensures owner in l.issued && l.issued[owner] == t
  {
    assert HoldOk(l, t.scan, t.page);
    assert SlotOk(l, t.slot);
  }

  // ------------------------------------------------------ each one keeps it

  lemma OpenKeeps(l: Ledger, scan: Id, host: string, now: int)
    requires LedgerOk(l) && scan !in l.hosts && now >= l.clock
    ensures LedgerOk(Open(l, scan, host, now))
  {
    var m := Open(l, scan, host, now);
    forall o ensures TokenOk(m, o) { assert TokenOk(l, o); }
    forall scan, n ensures HostOk(m, scan, n) { assert HostOk(l, scan, n); }
    forall k ensures SlotOk(m, k) { assert SlotOk(l, k); }
    forall s, p ensures HoldOk(m, s, p) { assert HoldOk(l, s, p); }
  }

  lemma WaitKeeps(l: Ledger, now: int)
    requires LedgerOk(l) && now >= l.clock
    ensures LedgerOk(Wait(l, now))
  {
    var m := Wait(l, now);
    forall o ensures TokenOk(m, o) { assert TokenOk(l, o); }
    forall scan, n ensures HostOk(m, scan, n) { assert HostOk(l, scan, n); }
    forall k ensures SlotOk(m, k) { assert SlotOk(l, k); }
    forall s, p ensures HoldOk(m, s, p) { assert HoldOk(l, s, p); }
  }

  /** A slot that is taken over had run out, and so had its page's lease. */
  lemma GrantKeeps(l: Ledger, owner: Id, token: Token, until: int, hostDelay: nat, now: int)
    requires LedgerOk(l) && now >= l.clock && Grantable(l, owner, token, now)
    ensures LedgerOk(Grant(l, owner, token, until, hostDelay, now))
  {
    var m := Grant(l, owner, token, until, hostDelay, now);
    forall o ensures TokenOk(m, o) { assert TokenOk(l, o); }
    forall scan, n ensures HostOk(m, scan, n) { assert HostOk(l, scan, n); }
    forall k ensures SlotOk(m, k) {
      assert SlotOk(l, k);
      if k in l.slots && l.slots[k].lease.Some? {
        var t := l.issued[l.slots[k].lease.value.owner];
        assert HoldOk(l, t.scan, t.page);
      }
    }
    forall s, p ensures HoldOk(m, s, p) {
      assert HoldOk(l, s, p);
      if s in l.holds && p in l.holds[s] {
        var t := l.issued[l.holds[s][p].lease.owner];
        assert SlotOk(l, t.slot);
      }
    }
  }

  lemma ExtendKeeps(l: Ledger, owner: Id, t: Token, until: int, now: int)
    requires LedgerOk(l) && now >= l.clock && Holding(l, owner, t)
    ensures LedgerOk(Extend(l, owner, t, until, now))
  {
    var m := Extend(l, owner, t, until, now);
    OnlyTheIssued(l, owner, t);
    assert SlotOk(l, t.slot);
    forall o ensures TokenOk(m, o) { assert TokenOk(l, o); }
    forall scan, n ensures HostOk(m, scan, n) { assert HostOk(l, scan, n); }
    forall k ensures SlotOk(m, k) { assert SlotOk(l, k); }
    forall s, p ensures HoldOk(m, s, p) { assert HoldOk(l, s, p); }
  }

  lemma ReleaseKeeps(l: Ledger, owner: Id, t: Token, now: int)
    requires LedgerOk(l) && now >= l.clock && Holding(l, owner, t)
    ensures LedgerOk(Release(l, owner, t, now))
  {
    var m := Release(l, owner, t, now);
    OnlyTheIssued(l, owner, t);
    assert SlotOk(l, t.slot);
    forall o ensures TokenOk(m, o) { assert TokenOk(l, o); }
    forall scan, n ensures HostOk(m, scan, n) { assert HostOk(l, scan, n); }
    forall k ensures SlotOk(m, k) { assert SlotOk(l, k); }
    forall s, p ensures HoldOk(m, s, p) { assert HoldOk(l, s, p); }
  }

  lemma CancelAllKeeps(l: Ledger, scan: Id, now: int)
    requires LedgerOk(l) && now >= l.clock && scan in l.hosts
    ensures LedgerOk(CancelAll(l, scan, now))
  {
    var m := CancelAll(l, scan, now);
    forall o ensures TokenOk(m, o) { assert TokenOk(l, o); }
    forall scan, n ensures HostOk(m, scan, n) { assert HostOk(l, scan, n); }
    forall k ensures SlotOk(m, k) {
      assert SlotOk(l, k);
      if k in l.slots && l.slots[k].lease.Some? {
        var o := l.slots[k].lease.value.owner;
        assert TokenOk(l, o);
        if l.issued[o].scan == scan {
          assert l.holds[scan][l.issued[o].page].lease.owner == o;
        }
      }
    }
    forall s, p ensures HoldOk(m, s, p) {
      assert HoldOk(l, s, p);
      if s in m.holds && p in m.holds[s] {
        var o := l.holds[s][p].lease.owner;
        forall q | q in l.holds[scan] ensures l.holds[scan][q].lease.owner != o {
          assert HoldOk(l, scan, q);
        }
      }
    }
  }

  lemma SweepKeeps(l: Ledger, skipped: set<Id>, now: int)
    requires LedgerOk(l) && now >= l.clock
    ensures LedgerOk(Sweep(l, skipped, now))
  {
    var m := Sweep(l, skipped, now);
    forall o ensures TokenOk(m, o) { assert TokenOk(l, o); }
    forall scan, n ensures HostOk(m, scan, n) { assert HostOk(l, scan, n); }
    forall k ensures SlotOk(m, k) { assert SlotOk(l, k); }
    forall s, p ensures HoldOk(m, s, p) { assert HoldOk(l, s, p); }
  }

  // ------------------------------------------------------------ consequences

  /** The holder of a lease that still runs is never told that it is stale. */
  lemma RunningLeaseHolds(l: Ledger, scan: Id, p: Id)
    requires LedgerOk(l) && scan in l.holds && p in l.holds[scan] && l.holds[scan][p].lease.expiresAt > l.clock
    ensures var owner := l.holds[scan][p].lease.owner;
      owner in l.issued && Holding(l, owner, l.issued[owner])
  {
    assert HoldOk(l, scan, p);
    var t := l.issued[l.holds[scan][p].lease.owner];
    assert SlotOk(l, t.slot);
  }

  /** The pages of a host whose leases still run. */
  ghost function Running(l: Ledger, host: string): set<(Id, Id)> {
    set scan, p | scan in l.holds && scan in l.hosts && l.hosts[scan] == host
                  && p in l.holds[scan] && l.holds[scan][p].lease.expiresAt > l.clock :: (scan, p)
  }

  /** No more pages of a host are being fetched than the host has slots. */
  lemma RunningBound(l: Ledger, host: string)
    requires LedgerOk(l)
    ensures |Running(l, host)| <= l.limit
  {
    var running := Running(l, host);
    forall e | e in running
      ensures HoldOk(l, e.0, e.1) && TokenOk(l, l.holds[e.0][e.1].lease.owner)
    {
      assert HoldOk(l, e.0, e.1);
      assert TokenOk(l, l.holds[e.0][e.1].lease.owner);
    }
    var slotOf := map e | e in running :: l.issued[l.holds[e.0][e.1].lease.owner].slot.1;
    InjectionBound(running, slotOf, l.limit);
  }

  /** The slots a cancellation of `scan` gives back. */
  ghost function GivenBack(l: Ledger, scan: Id): set<SlotKey>
    requires scan in l.holds && scan in l.hosts
  {
    set k | k in l.slots && k.0 == l.hosts[scan] && OwnedBy(l.slots[k], Owners(l.holds[scan]))
  }

  lemma {:induction false} InjectiveSize<A, B>(a: set<A>, b: set<B>, f: map<A, B>)
    requires a <= f.Keys
    requires forall x :: x in a ==> f[x] in b
    requires forall x, y :: x in a && y in a && f[x] == f[y] ==> x == y
    ensures |a| <= |b|
    decreases |a|
  {
    if a != {} {
      var x :| x in a;
      InjectiveSize(a - {x}, b - {f[x]}, f);
      assert a == (a - {x}) + {x} && b == (b - {f[x]}) + {f[x]};
    }
  }

  /** A cancellation never gives back more slots than it cancels leased pages. */
  lemma GivenBackBound(l: Ledger, scan: Id)
    requires LedgerOk(l) && scan in l.hosts
    ensures |GivenBack(l, scan)| <= |l.holds[scan]|
  {
    var back := GivenBack(l, scan);
    forall k | k in back
      ensures SlotOk(l, k)
      ensures l.issued[l.slots[k].lease.value.owner].scan == scan
      ensures l.issued[l.slots[k].lease.value.owner].page in l.holds[scan]
    {
      assert SlotOk(l, k);
      var p :| p in l.holds[scan] && l.holds[scan][p].lease.owner == l.slots[k].lease.value.owner;
      assert HoldOk(l, scan, p);
    }
    var pageOf := map k | k in back :: l.issued[l.slots[k].lease.value.owner].page;
    forall k, j | k in back && j in back && pageOf[k] == pageOf[j] ensures k == j {
      assert SlotOk(l, k) && SlotOk(l, j);
    }
    InjectiveSize(back, l.holds[scan].Keys, pageOf);
  }
}
