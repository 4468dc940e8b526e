/** The projection's status only moves forward, its counters stay in range, and a message counts once. */
module ProjectionOrder {
  import opened Frontier
  import opened ScanProjection
  import opened Pipeline

  /** How far a projection has come. */
  function Stage(status: ExecutionStatus): nat {
    match status
    case Queued => 0
    case Running => 1
    case Indexing => 1
    case CancelRequested => 2
    case _ => 3
  }

  /** The projection of a scan never reads INDEXING. */
  predicate Public(scan: Projection) {
    scan.status != Indexing
  }

  /** What an applied message makes of the status: the later one of the two; a message that says QUEUED leaves it. */
  function LaterOf(local: ExecutionStatus, remote: ExecutionStatus): ExecutionStatus {
    if Stage(remote) <= Stage(local) then local else remote
  }

  /** Any message, whether the crawler sent it or not. */
  lemma ConsumedStatus(scan: Projection, inbox: map<nat, Payload>, version: nat, p: Payload)
    requires Public(scan)
    ensures var after := AfterConsume(scan, inbox, version, p);
      && (Consumed(scan, inbox, version, p) == Applied ==>
            after.remoteVersion == version > scan.remoteVersion && !Terminal(scan.status) && after.status == LaterOf(scan.status, p.status))
      && (Consumed(scan, inbox, version, p) != Applied ==> after == scan)
  {
    hide ProgressOk, RemoteOk;
  }

  /** A snapshot that is not newer than the projection, or comes after its end, is ignored, and only such a one. */
  lemma IgnoredExactly(scan: Projection, version: int, p: Payload)
    ensures ApplyRemote(scan, version, p) == Ignored <==> version <= scan.remoteVersion || Terminal(scan.status)
    ensures ApplyRemote(scan, version, p).Updated? ==> ApplyRemote(scan, version, p).scan.remoteVersion == version
  {
    hide EmptyToNull;
  }

  predicate InRange(scan: Projection) {
    && 0 <= scan.queued && 0 <= scan.succeeded && 0 <= scan.failed
    && scan.processed == scan.succeeded + scan.failed
    && scan.queued + scan.processed <= scan.discovered <= scan.maxPages
    && 0 <= scan.published <= scan.expected <= scan.discovered
    && 0 <= scan.remoteVersion
  }

  /** Whatever arrives, the counters stay in range. */
  lemma ConsumedInRange(scan: Projection, inbox: map<nat, Payload>, version: nat, p: Payload)
    requires InRange(scan)
    ensures InRange(AfterConsume(scan, inbox, version, p))
  {
    hide NextStatus, EmptyToNull;
  }

  /** A new message in range is refused only if it says INDEXING, or asks a scan that has not begun to cancel. */
  predicate Malformed(p: Payload, limit: nat) {
    || p.queued < 0 || p.succeeded < 0 || p.failed < 0 || p.processed != p.succeeded + p.failed
    || p.queued + p.processed > p.discovered || p.discovered > limit
    || p.published < 0 || p.published > p.expected || p.expected > p.discovered
  }

  lemma RefusedExactly(scan: Projection, inbox: map<nat, Payload>, version: nat, p: Payload)
    requires Public(scan) && scan.maxPages > 0 && version !in inbox && version > scan.remoteVersion
    ensures Consumed(scan, inbox, version, p) == Rejected <==>
      p.status == Indexing || Malformed(p, scan.maxPages) || (scan.status == Queued && p.status == CancelRequested)
    ensures Consumed(scan, inbox, version, p) == IgnoredStale ==> Terminal(scan.status)
  {}

  /** What was consumed is known by its payload: again it is a duplicate, with another payload a collision, and neither changes anything. */
  lemma ConsumedOnce(scan: Projection, inbox: map<nat, Payload>, version: nat, p: Payload, q: Payload)
    requires Consumed(scan, inbox, version, p) == Applied || Consumed(scan, inbox, version, p) == IgnoredStale
    ensures var after, kept := AfterConsume(scan, inbox, version, p), InboxAfter(scan, inbox, version, p);
      && Consumed(after, kept, version, q) == (if q == p then IgnoredDuplicate else Collision)
      && AfterConsume(after, kept, version, q) == after && InboxAfter(after, kept, version, q) == kept
  {
    hide ApplyRemote, ProgressOk, RemoteOk;
  }

  // --------------------------------------------------------------- over flows

  ghost predicate Forward(a: Projection, b: Projection) {
    && Public(b) && Stage(a.status) <= Stage(b.status)
    && (Stage(a.status) == Stage(b.status) ==> a.status == b.status)
  }

  lemma MoveForward(rules: UrlRules, s: Pipeline, move: Move)
    requires Public(s.scan)
    ensures Forward(s.scan, Play(rules, s, move).scan)
  {
    hide Apply, Consumed, AfterConsume, InboxAfter;
    match move
    case Publish(i) =>
      if Sent(s.x, i) {
        var e := s.x.outbox[i];
        ConsumedStatus(s.scan, s.inbox, e.version, e.payload);
        PublicRemains(s.scan, s.inbox, e.version, e.payload);
      }
    case _ =>
  }

  lemma PublicRemains(scan: Projection, inbox: map<nat, Payload>, version: nat, p: Payload)
    requires Public(scan)
    ensures Public(AfterConsume(scan, inbox, version, p))
  {
    hide ProgressOk, RemoteOk, EmptyToNull;
  }

  lemma ForwardChain(a: Projection, b: Projection, c: Projection)
    requires Forward(a, b) && Forward(b, c)
    ensures Forward(a, c)
  {}

  lemma FlowBegins(rules: UrlRules, run: seq<Pipeline>)
    requires IsFlow(rules, run)
    ensures Public(run[0].scan)
  {}

  lemma {:induction false} FlowPublic(rules: UrlRules, run: seq<Pipeline>, i: nat)
    requires IsFlow(rules, run) && i < |run|
    ensures Public(run[i].scan)
  {
    FlowBegins(rules, run);
    hide Play, Started, Forward, Public;
    if i > 0 {
      FlowPublic(rules, run, i - 1);
      assert PlayAt(rules, run, i);
      var move :| run[i] == Play(rules, run[i - 1], move);
      MoveForward(rules, run[i - 1], move);
      ForwardPublic(run[i - 1].scan, run[i].scan);
    }
  }

  lemma ForwardPublic(a: Projection, b: Projection)
    requires Forward(a, b)
    ensures Public(b)
  {}

  /** QUEUED, RUNNING, CANCEL_REQUESTED, ended: the status of a projection only moves forward, and an end is final. */
  lemma {:induction false} StatusForward(rules: UrlRules, run: seq<Pipeline>, i: nat, j: nat)
    requires IsFlow(rules, run) && i <= j < |run|
    ensures Forward(run[i].scan, run[j].scan)
    decreases j
  {
    FlowPublic(rules, run, j);
    if i < j {
      StatusForward(rules, run, i, j - 1);
      FlowPublic(rules, run, j - 1);
      hide Play, Started, Forward, Public;
      assert PlayAt(rules, run, j);
      var move :| run[j] == Play(rules, run[j - 1], move);
      MoveForward(rules, run[j - 1], move);
      ForwardChain(run[i].scan, run[j - 1].scan, run[j].scan);
    }
  }

  /** A cancellation that the user asked for is never undone by an event of the crawler, however late. */
  lemma CancellationStays(rules: UrlRules, run: seq<Pipeline>, i: nat, j: nat)
    requires IsFlow(rules, run) && i <= j < |run| && run[i].scan.status == CancelRequested
    ensures run[j].scan.status == CancelRequested || Terminal(run[j].scan.status)
  {
    hide IsFlow;
    StatusForward(rules, run, i, j);
  }

  /** Asking to cancel a scan that has not ended makes it read CANCEL_REQUESTED; afterwards it changes nothing. */
  lemma AskedIsCancelling(rules: UrlRules, run: seq<Pipeline>)
    requires IsFlow(rules, run)
    ensures var s, r := End(run), Play(rules, End(run), AskCancel);
      if Terminal(s.scan.status) then r == s
      else r.scan == s.scan.(status := CancelRequested) && r.x == s.x && r.inbox == s.inbox
  {
    FlowPublic(rules, run, |run| - 1);
    hide IsFlow;
  }
}
