/** The Control Plane's copy of a scan and the consumer that keeps it up to date. */
module ScanProjection {
  import opened Common
  import opened Frontier

  datatype AnalyticsStatus = AnalyticsPending | AnalyticsIndexing | AnalyticsReady

  /** The columns of a scan row that crawler events change, and its page limit. */
  datatype Projection = Projection(
    status: ExecutionStatus, maxPages: nat,
    discovered: int, queued: int, processed: int, succeeded: int, failed: int,
    expected: int, published: int, analytics: AnalyticsStatus,
    terminalCode: Option<string>, remoteVersion: int)

  function NewProjection(maxPages: nat): Projection {
    Projection(Queued, maxPages, 0, 0, 0, 0, 0, 0, 0, AnalyticsPending, None, 0)
  }

  /** The checks of the ScanProgress constructor. */
  predicate ProgressOk(p: Payload, limit: nat) {
    && 0 <= p.discovered && 0 <= p.queued && 0 <= p.processed && 0 <= p.succeeded && 0 <= p.failed && 1 <= limit
    && p.discovered <= limit && p.queued <= limit && p.processed <= limit
    && p.queued <= p.discovered && p.processed <= p.discovered
    && p.processed == p.succeeded + p.failed
  }

  /** The checks of the RemoteScanProjection constructor. */
  predicate RemoteOk(version: int, p: Payload) {
    0 <= version && 0 <= p.expected && 0 <= p.published <= p.expected <= p.discovered
  }

  predicate Allowed(current: ExecutionStatus, next: ExecutionStatus) {
    match current
    case Queued => next == Running || next == CancelRequested || Terminal(next)
    case Running => next == CancelRequested || Terminal(next)
    case CancelRequested => Terminal(next)
    case _ => false
  }

  /** The lifecycle state after a remote snapshot; None when the state machine refuses it. */
  function NextStatus(local: ExecutionStatus, remote: ExecutionStatus): Option<ExecutionStatus> {
    if local == Queued && remote != Running && !Terminal(remote) then None
    else if remote == Running && local == Queued then Moved(local, Running)
    else if remote == CancelRequested && local == Running then Moved(local, CancelRequested)
    else if remote == local then Some(local)
    else if Terminal(remote) then Moved(local, remote)
    else if local != CancelRequested then None
    else Some(local)
  }

  function Moved(current: ExecutionStatus, next: ExecutionStatus): Option<ExecutionStatus> {
    if Allowed(current, next) then Some(next) else None
  }

  predicate Blank(s: string) {
    forall i :: 0 <= i < |s| ==> s[i] in {' ', '\t', '\n', '\r'}
  }

  function EmptyToNull(s: string): Option<string> {
    if Blank(s) then None else Some(s)
  }

  datatype Projected = Updated(scan: Projection) | Ignored | Refused

  /** ScanEntity.applyRemoteProjection. */
  function ApplyRemote(scan: Projection, version: int, p: Payload): Projected {
    if version <= scan.remoteVersion || Terminal(scan.status) then Ignored
    else if p.status == Queued then Updated(scan.(remoteVersion := version))
    else match NextStatus(scan.status, p.status)
      case None => Refused
      case Some(status) =>
        Updated(scan.(
          status := status,
          discovered := p.discovered, queued := p.queued, processed := p.processed,
          succeeded := p.succeeded, failed := p.failed,
          expected := p.expected, published := p.published,
          analytics := if p.expected == p.published && Terminal(p.status) then AnalyticsReady
                       else if p.expected > p.published then AnalyticsIndexing else AnalyticsPending,
          terminalCode := if Terminal(p.status) then EmptyToNull(p.terminalCode) else scan.terminalCode,
          remoteVersion := version))
  }

  datatype ConsumeOutcome = Applied | IgnoredStale | IgnoredDuplicate | Collision | Rejected

  /** What the consumer does with the event of a version. Each version is one message. */
  function Consumed(scan: Projection, inbox: map<nat, Payload>, version: nat, p: Payload): ConsumeOutcome {
    if version in inbox then (if inbox[version] == p then IgnoredDuplicate else Collision)
    else if version <= scan.remoteVersion then IgnoredStale
    else if p.status == Indexing || !ProgressOk(p, scan.maxPages) then Rejected
    else if p.queued + p.processed > p.discovered then Rejected
    else if !RemoteOk(version, p) then Rejected
    else match ApplyRemote(scan, version, p)
      case Updated(_) => Applied
      case Ignored => IgnoredStale
      case Refused => Rejected
  }

  function AfterConsume(scan: Projection, inbox: map<nat, Payload>, version: nat, p: Payload): Projection {
    if Consumed(scan, inbox, version, p) == Applied then ApplyRemote(scan, version, p).scan else scan
  }

  function InboxAfter(scan: Projection, inbox: map<nat, Payload>, version: nat, p: Payload): map<nat, Payload> {
    match Consumed(scan, inbox, version, p)
    case Applied => inbox[version := p]
    case IgnoredStale => inbox[version := p]
    case _ => inbox
  }

  /** ScanEntity.requestCancellation: refused once the scan is terminal. */
  function RequestCancellation(scan: Projection): Projection {
    if scan.status == Queued || scan.status == Running then scan.(status := CancelRequested) else scan
  }
}
