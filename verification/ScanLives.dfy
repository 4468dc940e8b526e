/** One scan in the store: what its row goes through is a run of that scan, so the store inherits what runs keep. */
module ScanLives {
  import opened Common
  import opened Frontier
  import opened Termination
  import opened Crawl
  import opened Cluster
  import opened ClusterInvariant

  /** The states of a scan from its acceptance on; they repeat while other scans change. */
  ghost function Life(run: seq<Cluster>, scan: Id): (xs: seq<Execution>)
    ensures |xs| <= |run|
  {
    if run == [] then []
    else Life(run[..|run| - 1], scan) + (if scan in Final(run).executions then [Final(run).executions[scan]] else [])
  }

  /** A transaction that finds nothing to do leaves the execution as it is. */
  lemma Stutters(rules: UrlRules, x: Execution)
    ensures Next(rules, x, x)
  {
    var step := CompleteEventStep(|x.outbox|, 0);
    assert x == Apply(rules, x, step, 0);
  }

  lemma ExtendRun(rules: UrlRules, command: ScanCommand, xs: seq<Execution>, y: Execution)
    requires IsScanRun(rules, command, xs) && Next(rules, Last(xs), y)
    ensures IsScanRun(rules, command, xs + [y])
  {
    hide Next;
    var more := xs + [y];
    forall i | 0 < i < |more| ensures StepAt(rules, more, i) {
      if i < |xs| {
        assert StepAt(rules, xs, i);
      }
    }
  }

  lemma StartRun(rules: UrlRules, x: Execution) returns (command: ScanCommand)
    requires New(x)
    ensures IsScanRun(rules, command, [x])
  {
    hide ValidCommand, NewExecution;
    var c, url, seed, start :| ValidCommand(c) && x == NewExecution(c, url, seed, start);
    command := c;
  }

  /** Where a scan stands in a history: absent before its birth, present from then on, and its states are its life. */
  ghost predicate Lives(run: seq<Cluster>, scan: Id, xs: seq<Execution>) {
    && |xs| <= |run|
    && (forall i {:trigger run[i]} :: 0 <= i < |run| - |xs| ==> scan !in run[i].executions)
    && (forall i {:trigger run[i]} :: |run| - |xs| <= i < |run| ==> scan in run[i].executions && xs[i - (|run| - |xs|)] == run[i].executions[scan])
  }

  lemma LivesOn(run: seq<Cluster>, scan: Id, xs: seq<Execution>, s: Cluster)
    requires Lives(run, scan, xs) && (xs != [] ==> scan in s.executions)
    ensures Lives(run + [s], scan, xs + (if scan in s.executions then [s.executions[scan]] else []))
  {
    var more := run + [s];
    assert more[|run|] == s && forall i :: 0 <= i < |run| ==> more[i] == run[i];
  }

  /** A scan in the store stays there. */
  lemma Stays(rules: UrlRules, run: seq<Cluster>, scan: Id)
    requires IsHistory(rules, run) && |run| > 1
    ensures IsHistory(rules, run[..|run| - 1])
    ensures var s, r := Final(run[..|run| - 1]), Final(run);
      && (scan in s.executions ==> scan in r.executions)
      && (scan in s.executions ==> r.executions[scan] == s.executions[scan] || Next(rules, s.executions[scan], r.executions[scan]))
      && (scan !in s.executions && scan in r.executions ==> New(r.executions[scan]))
  {
    hide ClusterOk, Transaction, New, Next;
    HistoryStep(rules, run);
    HistoryOk(rules, run[..|run| - 1]);
    TransactionKeeps(rules, Final(run[..|run| - 1]), Final(run));
  }

  lemma {:induction false} LifeBegins(rules: UrlRules, run: seq<Cluster>, scan: Id)
    requires IsHistory(rules, run)
    ensures Lives(run, scan, Life(run, scan))
  {
    var init := run[..|run| - 1];
    assert run == init + [Final(run)];
    if |run| > 1 {
      hide Lives, IsHistory, Next, New;
      Stays(rules, run, scan);
      LifeBegins(rules, init, scan);
      assert Life(init, scan) != [] ==> scan in Final(init).executions by { LastAlive(init, scan); }
      LivesOn(init, scan, Life(init, scan), Final(run));
    } else {
      assert init == [] && Life(init, scan) == [];
      LivesOn([], scan, [], Final(run));
    }
  }

  lemma LastAlive(run: seq<Cluster>, scan: Id)
    requires Lives(run, scan, Life(run, scan)) && run != []
    ensures Life(run, scan) != [] <==> scan in Final(run).executions
  {
    hide Life;
    assert run[|run| - 1] == Final(run);
  }

  /** Whatever the other scans do, the states of a scan in the store are a run of that scan. */
  lemma {:induction false} ScanLives(rules: UrlRules, run: seq<Cluster>, scan: Id) returns (command: ScanCommand)
    requires IsHistory(rules, run) && scan in Final(run).executions
    ensures Lives(run, scan, Life(run, scan)) && IsScanRun(rules, command, Life(run, scan))
  {
    LifeBegins(rules, run, scan);
    NotFirst(rules, run, scan);
    hide IsHistory, Lives, IsScanRun, New, Next;
    var init := run[..|run| - 1];
    var x := Final(run).executions[scan];
    Stays(rules, run, scan);
    LifeBegins(rules, init, scan);
    LastAlive(init, scan);
    if scan in Final(init).executions {
      command := ScanLives(rules, init, scan);
      LastState(init, scan);
      Stutters(rules, x);
      ExtendRun(rules, command, Life(init, scan), x);
    } else {
      command := StartRun(rules, x);
    }
  }

  lemma NotFirst(rules: UrlRules, run: seq<Cluster>, scan: Id)
    requires IsHistory(rules, run) && scan in Final(run).executions
    ensures |run| > 1
  {}

  lemma LastState(run: seq<Cluster>, scan: Id)
    requires run != [] && scan in Final(run).executions
    ensures Life(run, scan) != [] && Last(Life(run, scan)) == Final(run).executions[scan]
  {}

  lemma AtHistory(rules: UrlRules, run: seq<Cluster>, scan: Id, i: nat) returns (k: nat)
    requires IsHistory(rules, run) && i < |run| && scan in run[i].executions
    ensures k == i - (|run| - |Life(run, scan)|) && k < |Life(run, scan)| && Life(run, scan)[k] == run[i].executions[scan]
    ensures scan in Final(run).executions && forall j :: i <= j < |run| ==> scan in run[j].executions
  {
    hide IsHistory;
    LifeBegins(rules, run, scan);
    assert run[|run| - 1] == Final(run);
    k := i - (|run| - |Life(run, scan)|);
  }

  /** In the store, a terminal scan changes only by the delivery of its events. */
  lemma TerminalInStore(rules: UrlRules, run: seq<Cluster>, scan: Id, i: nat, j: nat)
    requires IsHistory(rules, run) && i <= j < |run| && scan in run[i].executions && Terminal(run[i].executions[scan].status)
    ensures scan in run[j].executions && OnlyDelivery(run[i].executions[scan], run[j].executions[scan])
  {
    hide IsHistory, IsScanRun, OnlyDelivery, Life, Lives;
    var k := AtHistory(rules, run, scan, i);
    var m := AtHistory(rules, run, scan, j);
    var command := ScanLives(rules, run, scan);
    TerminalAbsorbs(rules, command, Life(run, scan), k, m);
  }

  /** In the store, a cancelled scan never queues, leases or discovers a page again. */
  lemma CancellationInStore(rules: UrlRules, run: seq<Cluster>, scan: Id, i: nat, j: nat)
    requires IsHistory(rules, run) && i <= j < |run| && scan in run[i].executions && Cancelling(run[i].executions[scan])
    ensures scan in run[j].executions
    ensures var x, y := run[i].executions[scan], run[j].executions[scan];
      Cancelling(y) && NothingOpen(y) && y.pages.Keys == x.pages.Keys
  {
    hide IsHistory, IsScanRun, NothingOpen, Life, Lives;
    var k := AtHistory(rules, run, scan, i);
    var m := AtHistory(rules, run, scan, j);
    var command := ScanLives(rules, run, scan);
    CancellationIsFinal(rules, command, Life(run, scan), k, m);
  }

  /** In the store, a scan leases pages at most three times its budget, and at most eight times its budget moves one. */
  lemma WorkInStore(rules: UrlRules, run: seq<Cluster>, scan: Id)
    requires IsHistory(rules, run) && scan in Final(run).executions
    ensures var budget := Final(run).executions[scan].maxPages;
      ClaimCount(Life(run, scan)) <= MAX_ATTEMPTS * budget && Advances(Life(run, scan)) <= 8 * budget
  {
    hide IsHistory, IsScanRun, Lives;
    var command := ScanLives(rules, run, scan);
    NotFirst(rules, run, scan);
    LastState(run, scan);
    ClaimsBounded(rules, command, Life(run, scan));
    CrawlTerminates(rules, command, Life(run, scan));
    ScanLimits(rules, command, Life(run, scan));
  }
}
