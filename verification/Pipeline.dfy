/**
 * From the crawler to the Control Plane: the outbox is claimed, published at
 * least once and acknowledged after consumption, while the scan runs and a
 * user may ask for its cancellation.
 */
module Pipeline {
  import opened Common
  import opened Frontier
  import opened FrontierInvariant
  import opened EventLane
  import opened Termination
  import opened ScanProjection

  datatype Pipeline = Pipeline(x: Execution, scan: Projection, inbox: map<nat, Payload>)

  datatype Move =
    | Crawl(step: Step, now: int)        // any transaction of the store on this execution
    | Publish(index: nat)                // a claimed event reaches the consumer, now or much later
    | AskCancel                          // a local cancellation request

  /** An event is acknowledged only after its publication returned without an error. */
  ghost predicate Acknowledgeable(s: Pipeline, step: Step) {
    step.CompleteEventStep? && step.index < |s.x.outbox| ==> s.x.outbox[step.index].version in s.inbox
  }

  /** An event that was ever claimed may arrive, again or late. */
  predicate Sent(x: Execution, i: nat) {
    i < |x.outbox| && x.outbox[i].attempts > 0
  }

  ghost function Play(rules: UrlRules, s: Pipeline, move: Move): Pipeline {
    match move
    case Crawl(step, now) =>
      if Acknowledgeable(s, step) then s.(x := Apply(rules, s.x, step, now)) else s
    case Publish(i) =>
      if !Sent(s.x, i) then s
      else
        var e := s.x.outbox[i];
        s.(scan := AfterConsume(s.scan, s.inbox, e.version, e.payload),
           inbox := InboxAfter(s.scan, s.inbox, e.version, e.payload))
    case AskCancel => s.(scan := RequestCancellation(s.scan))
  }

  ghost predicate Plays(rules: UrlRules, s: Pipeline, r: Pipeline) {
    exists move :: r == Play(rules, s, move)
  }

  ghost predicate PlayAt(rules: UrlRules, run: seq<Pipeline>, i: nat)
    requires 0 < i < |run|
  {
    Plays(rules, run[i - 1], run[i])
  }

  /** A scan from its command on: a fresh execution, a fresh projection with the same page limit. */
  ghost predicate Started(s: Pipeline) {
    && s.inbox == map[] && s.scan == NewProjection(s.x.maxPages)
    && exists command, url, seed, start :: ValidCommand(command) && s.x == NewExecution(command, url, seed, start)
  }

  ghost predicate IsFlow(rules: UrlRules, run: seq<Pipeline>) {
    && |run| > 0 && Started(run[0])
    && forall i {:trigger PlayAt(rules, run, i)} :: 0 < i < |run| ==> PlayAt(rules, run, i)
  }

  ghost function End(run: seq<Pipeline>): Pipeline
    requires |run| > 0
  {
    run[|run| - 1]
  }

  lemma FlowPrefix(rules: UrlRules, run: seq<Pipeline>, n: nat)
    requires IsFlow(rules, run) && 0 < n <= |run|
    ensures IsFlow(rules, run[..n])
  {
    hide Started, Play;
    var init := run[..n];
    forall i | 0 < i < n ensures PlayAt(rules, init, i) {
      assert PlayAt(rules, run, i);
    }
  }

  // ------------------------------------------------------- the outbox grows

  /** The same message, sent no fewer times. */
  predicate SameMessage(a: Event, b: Event) {
    b.version == a.version && b.payload == a.payload && b.attempts >= a.attempts
  }

  /** Events stay, new ones join at the end unsent, and at most event `done` becomes delivered. */
  ghost predicate Grows(a: seq<Event>, b: seq<Event>, done: Option<nat>) {
    && |b| >= |a|
    && (forall i {:trigger b[i]} :: 0 <= i < |a| ==>
          SameMessage(a[i], b[i]) && (b[i].status == Delivered ==> a[i].status == Delivered || done == Some(i)))
    && (forall i {:trigger b[i]} :: |a| <= i < |b| ==> b[i].attempts == 0 && b[i].status == Pending)
  }

  lemma PublishGrows(x: Execution, now: int)
    ensures Grows(x.outbox, PublishProgress(x, now).outbox, None)
  {
    hide Snapshot, Throttled;
  }

  lemma ReclaimRowOutbox(x: Execution, skipLeases: bool, skipDeadline: bool, now: int)
    ensures ReclaimRow(x, skipLeases, skipDeadline, now).outbox == ReclaimDeliveries(x, now).outbox
  {
    var a := ReclaimDeliveries(x, now);
    var b := if skipLeases then a else ReclaimLeases(a, now);
    assert b.outbox == a.outbox;
    var c := if skipDeadline then b else ReclaimDeadline(b, now);
    assert c.outbox == b.outbox by { hide ReclaimLeases; }
    hide ReclaimLeases, ReclaimDeadline;
  }

  lemma ReclaimGrows(x: Execution, skipLeases: bool, skipDeadline: bool, now: int)
    ensures Grows(x.outbox, Reclaim(x, skipLeases, skipDeadline, now).outbox, None)
  {
    var y := ReclaimRow(x, skipLeases, skipDeadline, now);
    ReclaimRowOutbox(x, skipLeases, skipDeadline, now);
    hide ReclaimRow;
    PublishGrows(y, now);
    hide PublishProgress;
  }

  ghost function Completes(step: Step): Option<nat> {
    if step.CompleteEventStep? then Some(step.index) else None
  }

  lemma RowGrows(x: Execution, y: Execution, now: int)
    requires y.outbox == x.outbox
    ensures Grows(x.outbox, PublishProgress(y, now).outbox, None)
  {
    PublishGrows(y, now);
    hide PublishProgress;
  }

  lemma StepGrows(rules: UrlRules, x: Execution, step: Step, now: int)
    ensures Grows(x.outbox, Apply(rules, x, step, now).outbox, Completes(step))
  {
    hide PublishProgress, Reclaim;
    if Enabled(x, step, now) {
      match step
      case ClaimStep(p, owner, until) => RowGrows(x, ClaimRow(x, p, owner, until), now);
      case CommitStep(p, _, _, result, ids, retryAt) =>
        RowGrows(x, if ShouldRetryPage(result, x.pages[p].attempts) then RequeueRow(x, p, retryAt)
                    else StageRow(rules, x, p, result, ids, now), now);
      case AnalyticsStep(p, _) => RowGrows(x, AnalyticsRow(x, p), now);
      case CancelStep(version) => RowGrows(x, CancelRow(x, version), now);
      case ReclaimStep(skipLeases, skipDeadline) => ReclaimGrows(x, skipLeases, skipDeadline, now);
      case _ =>
    }
  }

  // --------------------------------------------------------------- invariant

  /** The projection tells what a snapshot told, or a cancellation asked for since. */
  ghost predicate Mirrors(scan: Projection, p: Payload) {
    && scan.discovered == p.discovered && scan.queued == p.queued && scan.processed == p.processed
    && scan.succeeded == p.succeeded && scan.failed == p.failed
    && scan.expected == p.expected && scan.published == p.published
    && (p.status == Running ==> scan.status == Running || scan.status == CancelRequested)
    && (p.status == CancelRequested ==> scan.status == CancelRequested)
    && (Terminal(p.status) ==>
          && scan.status == p.status && scan.terminalCode == EmptyToNull(p.terminalCode))
    && (!Terminal(p.status) ==> scan.terminalCode == None)
    && scan.analytics == (if p.published < p.expected then AnalyticsIndexing else if Terminal(p.status) then AnalyticsReady else AnalyticsPending)
  }

  /** Every consumed message is an event that was sent, and none is newer than the projection. */
  ghost predicate InboxOk(s: Pipeline) {
    forall v {:trigger v in s.inbox} :: v in s.inbox ==>
      v <= s.scan.remoteVersion
      && exists i :: 0 <= i < |s.x.outbox| && s.x.outbox[i].attempts > 0
                     && s.x.outbox[i].version == v && s.x.outbox[i].payload == s.inbox[v]
  }

  ghost predicate DeliveredConsumed(s: Pipeline) {
    forall i {:trigger s.x.outbox[i]} :: 0 <= i < |s.x.outbox| && s.x.outbox[i].status == Delivered ==> s.x.outbox[i].version in s.inbox
  }

  ghost predicate ProjectionOk(s: Pipeline) {
    && s.scan.maxPages == s.x.maxPages && s.x.maxPages > 0
    && if s.inbox == map[] then s.scan.remoteVersion == 0 && s.scan.terminalCode == None && (s.scan.status == Queued || s.scan.status == CancelRequested)
       else 0 <= s.scan.remoteVersion && s.scan.remoteVersion in s.inbox && Mirrors(s.scan, s.inbox[s.scan.remoteVersion])
  }

  ghost predicate Synced(s: Pipeline) {
    InboxOk(s) && DeliveredConsumed(s) && ProjectionOk(s)
  }

  ghost predicate PipelineOk(rules: UrlRules, s: Pipeline) {
    Valid(rules, s.x) && Synced(s)
  }

  // ------------------------------------------------------------ preservation

  lemma GrowsKeeps(s: Pipeline, y: Execution, done: Option<nat>)
    requires Synced(s) && Grows(s.x.outbox, y.outbox, done) && y.maxPages == s.x.maxPages
    requires done.Some? && done.value < |s.x.outbox| ==> s.x.outbox[done.value].version in s.inbox
    ensures Synced(s.(x := y))
  {
    hide Mirrors;
    forall v | v in s.inbox
      ensures exists i :: 0 <= i < |y.outbox| && y.outbox[i].attempts > 0 && y.outbox[i].version == v && y.outbox[i].payload == s.inbox[v]
    {
      var i :| 0 <= i < |s.x.outbox| && s.x.outbox[i].attempts > 0 && s.x.outbox[i].version == v && s.x.outbox[i].payload == s.inbox[v];
      assert SameMessage(s.x.outbox[i], y.outbox[i]);
    }
    forall i | 0 <= i < |y.outbox| && y.outbox[i].status == Delivered ensures y.outbox[i].version in s.inbox {
      assert i < |s.x.outbox|;
    }
  }

  lemma CrawlKeeps(rules: UrlRules, s: Pipeline, step: Step, now: int)
    requires PipelineOk(rules, s) && Acknowledgeable(s, step)
    ensures PipelineOk(rules, s.(x := Apply(rules, s.x, step, now)))
  {
    hide Valid, Apply, Synced, Grows;
    StepKeepsValid(rules, s.x, step, now);
    StepGrows(rules, s.x, step, now);
    StepCommand(rules, s.x, step, now);
    GrowsKeeps(s, Apply(rules, s.x, step, now), Completes(step));
  }

  /** Everything before a sent event has been consumed. */
  lemma EarlierConsumed(s: Pipeline, i: nat)
    requires LaneOk(s.x.outbox) && DeliveredConsumed(s) && Sent(s.x, i)
    ensures forall j :: 0 <= j < i ==> s.x.outbox[j].version in s.inbox
  {}

  /** The event that the projection mirrors. */
  lemma MirroredEvent(s: Pipeline) returns (k: nat)
    requires InboxOk(s) && ProjectionOk(s) && s.inbox != map[]
    ensures s.scan.remoteVersion in s.inbox && Mirrors(s.scan, s.inbox[s.scan.remoteVersion])
    ensures k < |s.x.outbox| && s.x.outbox[k].version == s.scan.remoteVersion
    ensures s.x.outbox[k].payload == s.inbox[s.scan.remoteVersion]
  {
    hide Mirrors;
    var v := s.scan.remoteVersion;
    k :| 0 <= k < |s.x.outbox| && s.x.outbox[k].version == v && s.x.outbox[k].payload == s.inbox[v];
  }

  lemma VersionOrder(x: Execution, k: nat, i: nat)
    requires OutboxOk(x) && k < |x.outbox| && i < |x.outbox| && x.outbox[k].version < x.outbox[i].version
    ensures k < |x.outbox| - 1
  {}

  /** While a newer event is on its way, the projection is not terminal. */
  lemma NotYetTerminal(s: Pipeline, i: nat)
    requires OutboxOk(s.x) && InboxOk(s) && ProjectionOk(s) && Sent(s.x, i)
    requires s.x.outbox[i].version > s.scan.remoteVersion
    ensures s.scan.status == Queued || s.scan.status == Running || s.scan.status == CancelRequested
    ensures s.scan.status == Queued ==> s.inbox == map[]
  {
    if s.inbox != map[] {
      var k := MirroredEvent(s);
      EventAt(s.x, k);
      VersionOrder(s.x, k, i);
      hide OutboxOk, InboxOk, PayloadOk;
    }
  }

  /** A snapshot of the crawler passes the consumer's checks. */
  lemma PayloadAccepted(version: nat, p: Payload, limit: nat)
    requires PayloadOk(p, limit) && limit > 0
    ensures p.status != Indexing && ProgressOk(p, limit) && p.queued + p.processed <= p.discovered && RemoteOk(version, p)
  {}

  /** A newer event is applied, and the projection mirrors it. */
  lemma NewerIsApplied(s: Pipeline, i: nat)
    requires OutboxOk(s.x) && InboxOk(s) && DeliveredConsumed(s) && ProjectionOk(s) && Sent(s.x, i)
    requires s.x.outbox[i].version !in s.inbox && s.x.outbox[i].version > s.scan.remoteVersion
    ensures var e := s.x.outbox[i];
      && Consumed(s.scan, s.inbox, e.version, e.payload) == Applied
      && var scan := AfterConsume(s.scan, s.inbox, e.version, e.payload);
         scan.remoteVersion == e.version && scan.maxPages == s.scan.maxPages && Mirrors(scan, e.payload)
  {
    var e := s.x.outbox[i];
    EarlierConsumed(s, i);
    NotYetTerminal(s, i);
    assert EventOk(e, s.x.progressVersion, s.x.maxPages);
    PayloadAccepted(e.version, e.payload, s.x.maxPages);
    assert s.inbox == map[] ==> i == 0;
    hide OutboxOk, InboxOk, DeliveredConsumed, ProgressOk, RemoteOk, PayloadOk;
    NewerStatus(s.scan.status, e.payload.status);
  }

  lemma NewerStatus(local: ExecutionStatus, remote: ExecutionStatus)
    requires local == Queued || local == Running || local == CancelRequested
    requires remote != Queued && remote != Indexing && (local == Queued ==> remote != CancelRequested)
    ensures NextStatus(local, remote).Some?
    ensures remote == Running ==> NextStatus(local, remote).value == Running || NextStatus(local, remote).value == CancelRequested
    ensures remote == CancelRequested ==> NextStatus(local, remote).value == CancelRequested
    ensures Terminal(remote) ==> NextStatus(local, remote).value == remote
  {}

  ghost predicate Accepts(outcome: ConsumeOutcome) {
    outcome == Applied || outcome == IgnoredStale || outcome == IgnoredDuplicate
  }

  lemma KnownMessage(s: Pipeline, i: nat)
    requires LaneOk(s.x.outbox) && InboxOk(s) && i < |s.x.outbox| && s.x.outbox[i].version in s.inbox
    ensures s.inbox[s.x.outbox[i].version] == s.x.outbox[i].payload
  {
    var v := s.x.outbox[i].version;
    var k :| 0 <= k < |s.x.outbox| && s.x.outbox[k].version == v && s.x.outbox[k].payload == s.inbox[v];
    assert k == i;
  }

  /** The consumer accepts every event that the crawler ever sends. */
  lemma SentIsAccepted(rules: UrlRules, s: Pipeline, i: nat)
    requires PipelineOk(rules, s) && Sent(s.x, i)
    ensures Accepts(Consumed(s.scan, s.inbox, s.x.outbox[i].version, s.x.outbox[i].payload))
  {
    hide FrontierOk;
    var e := s.x.outbox[i];
    if e.version in s.inbox {
      KnownMessage(s, i);
    } else if e.version > s.scan.remoteVersion {
      NewerIsApplied(s, i);
    }
  }

  /** What the consumer keeps of an accepted event: its message, whatever it does to the scan. */
  lemma ConsumeKeeps(scan: Projection, inbox: map<nat, Payload>, version: nat, p: Payload)
    ensures version in inbox ==> AfterConsume(scan, inbox, version, p) == scan && InboxAfter(scan, inbox, version, p) == inbox
    ensures version !in inbox && version <= scan.remoteVersion ==>
      AfterConsume(scan, inbox, version, p) == scan && InboxAfter(scan, inbox, version, p) == inbox[version := p]
    ensures Consumed(scan, inbox, version, p) == Applied ==> InboxAfter(scan, inbox, version, p) == inbox[version := p]
  {
    hide ApplyRemote, ProgressOk, RemoteOk;
  }

  /** The projection is in order after a message it has applied. */
  lemma NewerMirrored(s: Pipeline, r: Pipeline, version: nat, p: Payload)
    requires ProjectionOk(s) && r.x == s.x && r.inbox == s.inbox[version := p]
    requires r.scan.remoteVersion == version && r.scan.maxPages == s.scan.maxPages && Mirrors(r.scan, p)
    ensures ProjectionOk(r)
  {
    hide Mirrors;
    assert version in r.inbox;
  }

  /** The projection is in order after a message that comes too late. */
  lemma StaleMirrored(s: Pipeline, r: Pipeline, version: nat, p: Payload)
    requires ProjectionOk(s) && r.x == s.x && r.scan == s.scan && r.inbox == s.inbox[version := p]
    requires 0 < version <= s.scan.remoteVersion && version !in s.inbox
    ensures ProjectionOk(r)
  {
    hide Mirrors;
  }

  lemma SyncedParts(s: Pipeline)
    ensures Synced(s) <==> InboxOk(s) && DeliveredConsumed(s) && ProjectionOk(s)
  {
    hide InboxOk, DeliveredConsumed, ProjectionOk;
  }

  lemma PublishSynced(s: Pipeline, i: nat)
    requires OutboxOk(s.x) && Synced(s) && Sent(s.x, i)
    ensures var e := s.x.outbox[i];
      Synced(s.(scan := AfterConsume(s.scan, s.inbox, e.version, e.payload), inbox := InboxAfter(s.scan, s.inbox, e.version, e.payload)))
  {
    hide OutboxOk, Synced, InboxOk, DeliveredConsumed, ProjectionOk, Consumed, AfterConsume, InboxAfter, Mirrors;
    var e := s.x.outbox[i];
    var r := s.(scan := AfterConsume(s.scan, s.inbox, e.version, e.payload), inbox := InboxAfter(s.scan, s.inbox, e.version, e.payload));
    SyncedParts(s);
    ConsumeKeeps(s.scan, s.inbox, e.version, e.payload);
    if e.version in s.inbox {
      assert r == s;
      assert Synced(r);
    } else {
      EventPositive(s.x, i);
      if e.version > s.scan.remoteVersion {
        NewerIsApplied(s, i);
        NewerMirrored(s, r, e.version, e.payload);
      } else {
        StaleMirrored(s, r, e.version, e.payload);
      }
      InboxGains(s, r, i);
      SyncedParts(r);
      assert Synced(r);
    }
  }

  lemma PublishAccepted(rules: UrlRules, s: Pipeline, i: nat)
    requires PipelineOk(rules, s) && Sent(s.x, i)
    ensures PipelineOk(rules, Play(rules, s, Publish(i)))
  {
    hide Valid, OutboxOk, FrontierOk, Synced, AfterConsume, InboxAfter;
    ValidParts(rules, s.x);
    PublishSynced(s, i);
  }

  lemma EventPayload(x: Execution, i: nat)
    requires OutboxOk(x) && i < |x.outbox|
    ensures PayloadOk(x.outbox[i].payload, x.maxPages)
  {
    EventAt(x, i);
    hide OutboxOk, PayloadOk;
  }

  lemma EventPositive(x: Execution, i: nat)
    requires OutboxOk(x) && i < |x.outbox|
    ensures x.outbox[i].version > 0
  {
    assert EventOk(x.outbox[i], x.progressVersion, x.maxPages);
  }

  lemma InboxGains(s: Pipeline, r: Pipeline, i: nat)
    requires InboxOk(s) && DeliveredConsumed(s) && Sent(s.x, i)
    requires r.x == s.x && r.inbox == s.inbox[s.x.outbox[i].version := s.x.outbox[i].payload]
    requires r.scan.remoteVersion >= s.scan.remoteVersion && s.x.outbox[i].version <= r.scan.remoteVersion
    ensures InboxOk(r) && DeliveredConsumed(r)
  {}

  lemma AskCancelKeeps(rules: UrlRules, s: Pipeline)
    requires PipelineOk(rules, s)
    ensures PipelineOk(rules, Play(rules, s, AskCancel))
  {
    hide Valid;
  }

  lemma PlayKeeps(rules: UrlRules, s: Pipeline, move: Move)
    requires PipelineOk(rules, s)
    ensures PipelineOk(rules, Play(rules, s, move))
    ensures Play(rules, s, move).scan.remoteVersion >= s.scan.remoteVersion
  {
    hide PipelineOk, Apply;
    match move
    case Crawl(step, now) =>
      if Acknowledgeable(s, step) {
        CrawlKeeps(rules, s, step, now);
      }
    case Publish(i) =>
      if Sent(s.x, i) {
        PublishAccepted(rules, s, i);
      }
    case AskCancel => AskCancelKeeps(rules, s);
  }

  lemma StartedOk(rules: UrlRules, s: Pipeline)
    requires Started(s)
    ensures PipelineOk(rules, s)
  {
    var command, url, seed, start :| ValidCommand(command) && s.x == NewExecution(command, url, seed, start);
    NewExecutionValid(rules, command, url, seed, start);
    hide Valid;
  }

  lemma {:induction false} FlowOk(rules: UrlRules, run: seq<Pipeline>)
    requires IsFlow(rules, run)
    ensures PipelineOk(rules, End(run))
  {
    hide PipelineOk, Play, Started;
    if |run| == 1 {
      StartedOk(rules, run[0]);
    } else {
      var init := run[..|run| - 1];
      FlowPrefix(rules, run, |run| - 1);
      FlowOk(rules, init);
      assert PlayAt(rules, run, |run| - 1);
      var move :| End(run) == Play(rules, End(init), move);
      PlayKeeps(rules, End(init), move);
    }
  }

  lemma FlowOkAt(rules: UrlRules, run: seq<Pipeline>, i: nat)
    requires IsFlow(rules, run) && i < |run|
    ensures PipelineOk(rules, run[i])
  {
    hide PipelineOk, PlayAt, Started;
    FlowPrefix(rules, run, i + 1);
    FlowOk(rules, run[..i + 1]);
  }

  // ------------------------------------------------------------ what follows

  /** No event is ever rejected or mistaken for another, however late or often it arrives. */
  lemma NeverRejected(rules: UrlRules, run: seq<Pipeline>, i: nat)
    requires IsFlow(rules, run) && Sent(End(run).x, i)
    ensures var s := End(run);
      Accepts(Consumed(s.scan, s.inbox, s.x.outbox[i].version, s.x.outbox[i].payload))
  {
    hide PlayAt, Started, Consumed;
    assert PipelineOk(rules, End(run)) by { FlowOk(rules, run); }
    hide PipelineOk;
    SentIsAccepted(rules, End(run), i);
  }

  /** Versions only rise. */
  lemma {:induction false} VersionsRise(rules: UrlRules, run: seq<Pipeline>, i: nat, j: nat)
    requires IsFlow(rules, run) && i <= j < |run|
    ensures run[i].scan.remoteVersion <= run[j].scan.remoteVersion
    decreases j
  {
    hide PipelineOk, Play, Started;
    if i < j {
      VersionsRise(rules, run, i, j - 1);
      FlowOkAt(rules, run, j - 1);
      assert PlayAt(rules, run, j);
      var move :| run[j] == Play(rules, run[j - 1], move);
      PlayKeeps(rules, run[j - 1], move);
    }
  }

  /** The projection tells the final state of the crawl. */
  ghost predicate Converged(s: Pipeline) {
    var c := s.x.counts;
    && s.scan.status == s.x.status
    && s.scan.discovered == c.discovered && s.scan.queued == 0
    && s.scan.succeeded == c.succeeded && s.scan.failed == c.failed + c.skipped + c.cancelled
    && s.scan.processed == s.scan.succeeded + s.scan.failed == c.discovered
    && s.scan.expected == c.expected && s.scan.published == c.published
    && s.scan.analytics == AnalyticsReady
    && s.scan.remoteVersion == s.x.progressVersion
    && s.scan.terminalCode == EmptyToNull(if s.x.status == Failed && s.x.terminalCode == "" then "CRAWL_FAILED" else s.x.terminalCode)
  }

  lemma LastMirrored(rules: UrlRules, s: Pipeline)
    requires PipelineOk(rules, s) && s.inbox != map[] && Terminal(s.inbox[s.scan.remoteVersion].status)
    ensures Terminal(s.x.status) && s.scan.remoteVersion == s.x.progressVersion && Mirrors(s.scan, Snapshot(s.x))
  {
    hide Valid, OutboxOk, InboxOk, ProjectionOk, EventOk, Mirrors, Snapshot;
    ValidParts(rules, s.x);
    var k := MirroredEvent(s);
    EventAt(s.x, k);
  }

  lemma TerminalCounts(x: Execution)
    requires StatusOk(x) && Terminal(x.status)
    ensures x.counts.queued == 0 && x.counts.leased == 0 && x.counts.persisting == 0
  {}

  lemma MirroredIsConverged(rules: UrlRules, s: Pipeline)
    requires Valid(rules, s.x) && Terminal(s.x.status) && s.scan.remoteVersion == s.x.progressVersion && Mirrors(s.scan, Snapshot(s.x))
    ensures Converged(s)
  {
    hide Valid, OutboxOk, FrontierOk, CountersMatch, PagesOk, TreeOk, StatusOk;
    ValidParts(rules, s.x);
    FrontierParts(rules, s.x);
    CountersSum(s.x);
    AnalyticsConservation(s.x);
    SnapshotOk(rules, s.x);
    TerminalCounts(s.x);
  }

  /** A terminal projection is never premature and never wrong. */
  lemma TerminalProjectionIsFinal(rules: UrlRules, run: seq<Pipeline>)
    requires IsFlow(rules, run) && Terminal(End(run).scan.status)
    ensures Terminal(End(run).x.status) && Converged(End(run))
  {
    hide PlayAt, Started, Converged;
    var s := End(run);
    assert PipelineOk(rules, s) by { FlowOk(rules, run); }
    assert s.inbox != map[] && Terminal(s.inbox[s.scan.remoteVersion].status) by { TerminalSource(rules, s); }
    assert Valid(rules, s.x);
    hide PipelineOk, Mirrors;
    LastMirrored(rules, s);
    MirroredIsConverged(rules, s);
  }

  lemma TerminalSource(rules: UrlRules, s: Pipeline)
    requires PipelineOk(rules, s) && Terminal(s.scan.status)
    ensures s.inbox != map[] && Terminal(s.inbox[s.scan.remoteVersion].status)
  {
    hide Valid, OutboxOk, InboxOk, EventOk, Snapshot;
    ValidParts(rules, s.x);
    if s.inbox != map[] {
      var k := MirroredEvent(s);
      EventAt(s.x, k);
      assert PayloadOk(s.x.outbox[k].payload, s.x.maxPages) by { EventPayload(s.x, k); }
      MirroredTerminal(s.scan, s.x.outbox[k].payload, s.x.maxPages);
    }
  }

  lemma MirroredTerminal(scan: Projection, p: Payload, maxPages: nat)
    requires Mirrors(scan, p) && PayloadOk(p, maxPages) && Terminal(scan.status)
    ensures Terminal(p.status)
  {}

  lemma LastConsumed(rules: UrlRules, s: Pipeline)
    requires PipelineOk(rules, s) && Terminal(s.x.status)
    requires forall i :: 0 <= i < |s.x.outbox| ==> s.x.outbox[i].status == Delivered
    ensures s.inbox != map[] && Terminal(s.inbox[s.scan.remoteVersion].status)
  {
    assert OutboxOk(s.x);
    SnapshotOk(rules, s.x);
    hide Valid, FrontierOk, Snapshot, Mirrors;
    var last := |s.x.outbox| - 1;
    assert s.x.outbox[last].version in s.inbox;
    var v := s.scan.remoteVersion;
    var k :| 0 <= k < |s.x.outbox| && s.x.outbox[k].version == v && s.x.outbox[k].payload == s.inbox[v];
    assert k == last;
  }

  /** Once a scan is terminal and its outbox is delivered, the Control Plane shows exactly its final state. */
  lemma Convergence(rules: UrlRules, run: seq<Pipeline>)
    requires IsFlow(rules, run) && Terminal(End(run).x.status)
    requires forall i :: 0 <= i < |End(run).x.outbox| ==> End(run).x.outbox[i].status == Delivered
    ensures Converged(End(run))
  {
    hide PlayAt, Started, Converged;
    var s := End(run);
    assert PipelineOk(rules, s) by { FlowOk(rules, run); }
    LastConsumed(rules, s);
    assert Valid(rules, s.x);
    hide PipelineOk, Mirrors;
    LastMirrored(rules, s);
    MirroredIsConverged(rules, s);
  }
}
