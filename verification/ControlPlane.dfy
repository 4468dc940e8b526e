/** The consumer and the publisher as objects: rows updated in place, messages delivered one by one. */
module ControlPlane {
  import opened Common
  import opened Frontier
  import opened ScanProjection
  import opened Pipeline
  import P = Pipeline

  /** A scan row of the Control Plane. */
  class ScanEntity {
    var status: ExecutionStatus
    const maxPages: nat
    var discovered: int
    var queued: int
    var processed: int
    var succeeded: int
    var failed: int
    var expected: int
    var published: int
    var analytics: AnalyticsStatus
    var terminalCode: Option<string>
    var remoteVersion: int

    ghost function State(): Projection
      reads this
    {
      Projection(status, maxPages, discovered, queued, processed, succeeded, failed, expected, published,
                 analytics, terminalCode, remoteVersion)
    }

    constructor (maxPages: nat)
      ensures State() == NewProjection(maxPages)
    {
      this.maxPages := maxPages;
      status, analytics, terminalCode, remoteVersion := Queued, AnalyticsPending, None, 0;
      discovered, queued, processed, succeeded, failed, expected, published := 0, 0, 0, 0, 0, 0, 0;
    }

    /** False when already cancelling; None once the scan has ended otherwise. */
    method RequestCancellation() returns (accepted: Option<bool>)
      modifies this
      ensures State() == ScanProjection.RequestCancellation(old(State()))
      ensures accepted == Some(true) <==> State() != old(State())
      ensures accepted == None <==> (Terminal(old(status)) && old(status) != Cancelled) || old(status) == Indexing
    {
      if status == CancelRequested || status == Cancelled {
        return Some(false);
      }
      if status == Queued || status == Running {
        status := CancelRequested;
        return Some(true);
      }
      accepted := None;
    }

    /** Lifecycle first, then the counters, then the version; a refusal comes before any write. */
    method ApplyRemoteProjection(version: int, p: Payload) returns (result: Projected)
      modifies this
      ensures result == ApplyRemote(old(State()), version, p)
      ensures State() == if result.Updated? then result.scan else old(State())
    {
      if version <= remoteVersion || Terminal(status) {
        return Ignored;
      }
      if p.status == Queued {
        remoteVersion := version;
        return Updated(Projection(status, maxPages, discovered, queued, processed, succeeded, failed, expected, published,
                                  analytics, terminalCode, remoteVersion));
      }
      if status == Queued && p.status != Running && !Terminal(p.status) {
        return Refused;
      }
      if p.status == Running && status == Queued {
        status := Running;
      } else if p.status == CancelRequested && status == Running {
        status := CancelRequested;
      } else if p.status == status {
      } else if Terminal(p.status) {
        if !Allowed(status, p.status) {
          return Refused;
        }
        status := p.status;
      } else if status != CancelRequested {
        return Refused;
      }
      discovered, queued, processed := p.discovered, p.queued, p.processed;
      succeeded, failed := p.succeeded, p.failed;
      expected, published := p.expected, p.published;
      analytics := if expected == published && Terminal(p.status) then AnalyticsReady
                   else if expected > published then AnalyticsIndexing else AnalyticsPending;
      if Terminal(p.status) {
        terminalCode := EmptyToNull(p.terminalCode);
      }
      remoteVersion := version;
      result := Updated(Projection(status, maxPages, discovered, queued, processed, succeeded, failed, expected, published,
                                   analytics, terminalCode, remoteVersion));
    }
  }

  /** Consumes the events of one scan; the inbox remembers each message and its payload. */
  class ScanEventService {
    const scan: ScanEntity
    var inbox: map<nat, Payload>

    constructor (scan: ScanEntity)
      ensures this.scan == scan && inbox == map[]
    {
      this.scan, inbox := scan, map[];
    }

    method Consume(version: nat, p: Payload) returns (outcome: ConsumeOutcome)
      modifies this, scan
      ensures outcome == Consumed(old(scan.State()), old(inbox), version, p)
      ensures scan.State() == AfterConsume(old(scan.State()), old(inbox), version, p)
      ensures inbox == InboxAfter(old(scan.State()), old(inbox), version, p)
    {
      if version in inbox {
        return if inbox[version] == p then IgnoredDuplicate else Collision;
      }
      if version <= scan.remoteVersion {
        inbox := inbox[version := p];
        return IgnoredStale;
      }
      if p.status == Indexing || !ProgressOk(p, scan.maxPages) {
        return Rejected;
      }
      if p.queued + p.processed > p.discovered {
        return Rejected;
      }
      if !RemoteOk(version, p) {
        return Rejected;
      }
      var result := scan.ApplyRemoteProjection(version, p);
      if result == Refused {
        return Rejected;
      }
      inbox := inbox[version := p];
      outcome := if result == Ignored then IgnoredStale else Applied;
    }
  }

  /** What becomes of one request to the consumer. */
  datatype Reply = RequestLost | ReplyLost | Answered

  /** Publishes the claimed events of one scan. */
  class Publisher {
    const rules: UrlRules
    const service: ScanEventService
    var x: Execution

    ghost function State(): P.Pipeline
      reads this, service, service.scan
    {
      P.Pipeline(x, service.scan.State(), service.inbox)
    }

    constructor (rules: UrlRules, service: ScanEventService, x: Execution)
      ensures this.rules == rules && this.service == service && this.x == x
    {
      this.rules, this.service, this.x := rules, service, x;
    }

    /** The event reaches the consumer, which never refuses it. */
    method Reach(i: nat) returns (outcome: ConsumeOutcome)
      requires PipelineOk(rules, State()) && Sent(x, i)
      modifies service, service.scan
      ensures PipelineOk(rules, State()) && State() == Play(rules, old(State()), Publish(i))
      ensures Accepts(outcome) && x.outbox[i].version in service.inbox
    {
      hide PipelineOk, Consumed, AfterConsume, InboxAfter, Play;
      ghost var s := State();
      PublishAccepted(rules, s, i);
      SentAndKept(s, i);
      outcome := service.Consume(x.outbox[i].version, x.outbox[i].payload);
    }

    /** One request: the event is consumed unless the request is lost; the sender learns of it unless the reply is lost. */
    method Send(i: nat, reply: Reply) returns (ok: bool)
      requires PipelineOk(rules, State()) && Sent(x, i)
      modifies service, service.scan
      ensures PipelineOk(rules, State()) && x == old(x)
      ensures State() == if reply == RequestLost then old(State()) else Play(rules, old(State()), Publish(i))
      ensures ok <==> reply == Answered
      ensures ok ==> x.outbox[i].version in service.inbox
    {
      hide PipelineOk, Play;
      if reply == RequestLost {
        return false;
      }
      var outcome := Reach(i);
      ok := reply == Answered && outcome != Rejected && outcome != Collision;
    }

    /** A sent event is accepted, and its message kept. */
    lemma SentAndKept(s: P.Pipeline, i: nat)
      requires PipelineOk(rules, s) && Sent(s.x, i)
      ensures var e := s.x.outbox[i];
        && Accepts(Consumed(s.scan, s.inbox, e.version, e.payload))
        && e.version in InboxAfter(s.scan, s.inbox, e.version, e.payload)
        && Play(rules, s, Publish(i))
           == P.Pipeline(s.x, AfterConsume(s.scan, s.inbox, e.version, e.payload), InboxAfter(s.scan, s.inbox, e.version, e.payload))
    {
      SentIsAccepted(rules, s, i);
      hide PipelineOk, AfterConsume, Apply;
      AcceptedIsKept(s, i);
    }

    lemma AcceptedIsKept(s: P.Pipeline, i: nat)
      requires Sent(s.x, i) && Accepts(Consumed(s.scan, s.inbox, s.x.outbox[i].version, s.x.outbox[i].payload))
      ensures s.x.outbox[i].version in InboxAfter(s.scan, s.inbox, s.x.outbox[i].version, s.x.outbox[i].payload)
    {}

    /** CompleteEvent: delivered, if the lease is still this owner's and still runs. */
    method Acknowledge(i: nat, owner: Id, now: int)
      requires PipelineOk(rules, State()) && i < |x.outbox| && x.outbox[i].version in service.inbox
      modifies this
      ensures PipelineOk(rules, State())
      ensures x == if Live(old(x).outbox, i, owner, now) then CompleteEvent(old(x), i) else old(x)
      ensures State() == Play(rules, old(State()), Crawl(CompleteEventStep(i, owner), now))
    {
      hide PipelineOk;
      CrawlKeeps(rules, State(), CompleteEventStep(i, owner), now);
      if HoldsEvent(x.outbox, i, owner) && x.outbox[i].lease.value.expiresAt > now {
        x := CompleteEvent(x, i);
      }
    }

    /** RetryEvent: back to the queue, if the lease is still this owner's. */
    method PutBack(i: nat, owner: Id, retryAt: int, now: int)
      requires PipelineOk(rules, State()) && i < |x.outbox|
      modifies this
      ensures PipelineOk(rules, State())
      ensures x == if HoldsEvent(old(x).outbox, i, owner) then RetryEvent(old(x), i, retryAt) else old(x)
      ensures State() == Play(rules, old(State()), Crawl(RetryEventStep(i, owner, retryAt), now))
    {
      hide PipelineOk;
      CrawlKeeps(rules, State(), RetryEventStep(i, owner, retryAt), now);
      if HoldsEvent(x.outbox, i, owner) {
        x := RetryEvent(x, i, retryAt);
      }
    }

    predicate Live(outbox: seq<Event>, i: nat, owner: Id, now: int) {
      HoldsEvent(outbox, i, owner) && outbox[i].lease.value.expiresAt > now
    }

    ghost predicate SameMessages(before: seq<Event>, after: seq<Event>) {
      |after| == |before| && forall i {:trigger after[i]} :: 0 <= i < |before| ==> SameMessage(before[i], after[i])
    }

    /** The message has been consumed, and is delivered if its lease ran when it was acknowledged. */
    ghost predicate Handled(before: seq<Event>, after: seq<Event>, inbox: map<nat, Payload>, i: nat, owner: Id, now: int) {
      && i < |before| && i < |after| && after[i].version in inbox
      && (Live(before, i, owner, now) ==> after[i].status == Delivered)
    }

    /** The lane's messages published and acknowledged, one after the other. */
    ghost function AfterLane(s: P.Pipeline, lane: seq<nat>, owner: Id, now: int): P.Pipeline {
      if lane == [] then s
      else
        var before, i := AfterLane(s, lane[..|lane| - 1], owner, now), lane[|lane| - 1];
        Play(rules, Play(rules, before, Publish(i)), Crawl(CompleteEventStep(i, owner), now))
    }

    /** A message whose delivery has failed is put back, whether the consumer has seen it or not. */
    ghost function GivenUp(s: P.Pipeline, i: nat, reply: Reply, owner: Id, retryAt: int, now: int): P.Pipeline {
      Play(rules, if reply == RequestLost then s else Play(rules, s, Publish(i)), Crawl(RetryEventStep(i, owner, retryAt), now))
    }

    lemma LaneNext(s: P.Pipeline, lane: seq<nat>, k: nat, owner: Id, now: int)
      requires k < |lane|
      ensures AfterLane(s, lane[..0], owner, now) == s
      ensures AfterLane(s, lane[..k + 1], owner, now)
        == Play(rules, Play(rules, AfterLane(s, lane[..k], owner, now), Publish(lane[k])), Crawl(CompleteEventStep(lane[k], owner), now))
    {
      hide Play;
      assert lane[..k + 1][..k] == lane[..k];
    }

    /**
     * The lane loop: each message is published and then acknowledged; the first
     * failure puts its message back and ends the lane. Whatever is lost on the
     * way, nothing is acknowledged that was not consumed.
     */
    method PublishLane(lane: seq<nat>, owner: Id, replies: seq<Reply>, retryAt: int, now: int) returns (done: nat)
      requires PipelineOk(rules, State())
      requires |replies| == |lane| && forall k :: 0 <= k < |lane| ==> Sent(x, lane[k])
      modifies this, service, service.scan
      ensures PipelineOk(rules, State())
      ensures service.scan.remoteVersion >= old(service.scan.remoteVersion)
      ensures done <= |lane| && (forall k :: 0 <= k < done ==> replies[k] == Answered) && (done < |lane| ==> replies[done] != Answered)
      ensures var prefix := AfterLane(old(State()), lane[..done], owner, now);
        State() == if done == |lane| then prefix else GivenUp(prefix, lane[done], replies[done], owner, retryAt, now)
      ensures SameMessages(old(x).outbox, x.outbox)
      ensures forall k :: 0 <= k < done ==> Handled(old(x).outbox, x.outbox, service.inbox, lane[k], owner, now)
    {
      hide PipelineOk, Play, AfterLane, Handled, Live;
      done := 0;
      assert State() == AfterLane(State(), lane[..0], owner, now) by { NothingSent(State(), owner, now); }
      while done < |lane|
        invariant PipelineOk(rules, State()) && service.scan.remoteVersion >= old(service.scan.remoteVersion)
        invariant done <= |lane| && forall k :: 0 <= k < done ==> replies[k] == Answered
        invariant State() == AfterLane(old(State()), lane[..done], owner, now)
        invariant SameMessages(old(x).outbox, x.outbox) && StillLive(old(x).outbox, x.outbox, owner, now)
        invariant forall k :: 0 <= k < done ==> Handled(old(x).outbox, x.outbox, service.inbox, lane[k], owner, now)
      {
        ghost var s := State();
        PlayKeeps(rules, s, Publish(lane[done]));
        InboxOnlyGrows(s, lane[done]);
        var ok := Send(lane[done], replies[done]);
        if !ok {
          HandledKept(old(x).outbox, x, service.inbox, s.inbox, lane, done, owner, retryAt, now);
          PutBack(lane[done], owner, retryAt, now);
          break;
        }
        ghost var sent := State();
        Acknowledge(lane[done], owner, now);
        LaneNext(old(State()), lane, done, owner, now);
        HandledNext(old(x).outbox, sent.x, x, service.inbox, s.inbox, lane, done, owner, now);
        done := done + 1;
      }
    }

    /** What was held is still held, or delivered. */
    ghost predicate StillLive(before: seq<Event>, after: seq<Event>, owner: Id, now: int) {
      |after| == |before| && forall i {:trigger after[i]} :: 0 <= i < |before| && Live(before, i, owner, now) ==>
        after[i].status == Delivered || Live(after, i, owner, now)
    }

    lemma NothingSent(s: P.Pipeline, owner: Id, now: int)
      ensures AfterLane(s, [], owner, now) == s
    {}

    /** After an acknowledgement the messages handled before still are, and so is this one. */
    lemma HandledNext(before: seq<Event>, sent: Execution, after: Execution, inbox: map<nat, Payload>, past: map<nat, Payload>,
                      lane: seq<nat>, done: nat, owner: Id, now: int)
      requires done < |lane| && lane[done] < |sent.outbox| && sent.outbox[lane[done]].version in inbox
      requires SameMessages(before, sent.outbox) && StillLive(before, sent.outbox, owner, now)
      requires after == if Live(sent.outbox, lane[done], owner, now) then CompleteEvent(sent, lane[done]) else sent
      requires forall v :: v in past ==> v in inbox
      requires forall k :: 0 <= k < done ==> Handled(before, sent.outbox, past, lane[k], owner, now)
      ensures SameMessages(before, after.outbox) && StillLive(before, after.outbox, owner, now)
      ensures forall k :: 0 <= k <= done ==> Handled(before, after.outbox, inbox, lane[k], owner, now)
    {}

    /** Putting one message back leaves those that were handled. */
    lemma HandledKept(before: seq<Event>, sent: Execution, inbox: map<nat, Payload>, past: map<nat, Payload>,
                      lane: seq<nat>, done: nat, owner: Id, retryAt: int, now: int)
      requires done < |lane| && lane[done] < |sent.outbox|
      requires SameMessages(before, sent.outbox) && forall v :: v in past ==> v in inbox
      requires forall k :: 0 <= k < done ==> Handled(before, sent.outbox, past, lane[k], owner, now)
      ensures var after := if HoldsEvent(sent.outbox, lane[done], owner) then RetryEvent(sent, lane[done], retryAt) else sent;
        && SameMessages(before, after.outbox)
        && forall k :: 0 <= k < done ==> Handled(before, after.outbox, inbox, lane[k], owner, now)
    {}

    lemma InboxOnlyGrows(s: P.Pipeline, i: nat)
      ensures forall v :: v in s.inbox ==> v in Play(rules, s, Publish(i)).inbox
    {}
  }
}
