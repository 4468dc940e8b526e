# WebLens: durable crawling, event delivery and site clones

This project models the parts of WebLens that have to survive crashes, lost
replies and concurrent workers, and proves what they promise in every run.
Times are whole milliseconds. Every SQL transaction is one atomic step; a run
is any sequence of steps with any values drawn from outside. The clock of the
crawler's store and of the clone artifacts does not go back; a run of one scan
or of one site clone may even read any times. The transactions of the stores
are written a second time as methods of classes that update their rows in
place, and every method is proved to have exactly the effect of its step.

**The crawler's frontier** (`Frontier`, `FrontierInvariant`, `EventLane`,
`ProgressEvents`, `PageOutcomes`, `ScanEndings`, `Deliveries`, `Termination`,
`Crawl`, `Acknowledgement`). One execution with its pages, analytics rows and
event outbox: claim, extend, commit with discovery, acknowledge analytics,
cancel, reclaim. Proved over all runs of a scan: counters are counts, the
frontier is the least closed set, cancellation and terminal states are final,
the crawl ends after a bounded number of steps, and an owner that has lost an
event is fenced off for good.

**The store** (`Cluster`, `Ledger`, `PageHolds`, `ClusterInvariant`,
`HostSafety`, `HostRate`, `ScanLives`, `Commands`, `Recovery`, `CrawlStore`).
All executions together with the host slots. Page lease and slot lease are tied
together through the owner, which `crawler/internal/crawl/engine.go` draws
afresh for every claim; from this follow host exclusivity, the bound on
concurrent fetches and the visit rate. `ScanLives.ScanLives` shows that one
scan of the store goes through a run of its own, and carries its termination
and cancellation over; from every reachable store a scan can still end
(`Recovery.ScanCanEnd`).

**The event pipeline** (`ScanProjection`, `Pipeline`, `ProjectionOrder`,
`ControlPlane`). Snapshots go through the throttled outbox, are sent at least
once, possibly again or much later, are consumed idempotently, and end up as
the projection of the scan, while a user may ask for its cancellation at any
time.

**Clone artifacts of a capture** (`CloneVault`, `VaultMoves`, `CaptureStore`).
Staging, publication and collection are kept apart by time bounds alone.

**The site clone** (`SiteClone`, `SiteCloneInvariant`, `SiteCloneSafety`,
`SiteCloneMoves`, `SiteCloneStore`). Ingestion, page leases, incremental
counters, assembly, publication, cancellation and collection of one job.

**Building an archive** (`Sorting`, `DesignSelection`, `DesignPreference`,
`DesignSelector`, `Representatives`, `SiteTargets`, `ResourceAliases`,
`StylesheetAliases`, `ArchiveShards`, `ArchivePaths`, `StaticPlan`,
`ReportPages`). The sequential algorithms between the page report and the
shards, as loops over their data.

## Where the code is less than one would expect

- A cancellation is applied to any scan that has not ended, but it moves a page
  only if something is queued or leased: the first one of a scan that has only
  analytics left to deliver moves none (`Termination.FirstCancelMovesNone`), and
  neither does one with a higher version on a scan that is already cancelling.
  `Termination.StepRank` says of every transaction when the rank falls.
- Reclamation passes locked executions by but sweeps all slots, so a page may
  stay LEASED without its slot. The tie is exact from slot to page
  (`HostSafety.SlotMatchesPage`); from page to slot it holds while the lease
  runs (`HostSafety.LiveLeaseNeverStale`).
- Publication and collection of a capture's artifacts are safe if and only if a
  publication reads the artifact rows within four minutes of the start of its
  transaction (`CloneVault.PublishedIsStored`, `CloneVault.LatePublicationRaces`).
- Completing the deletion of an archive of any generation makes its job read
  EXPIRED (`capture-worker/src/database.ts:644-647`). `CloneVault.ExpiredMeansGone`
  gives the exact condition under which the published archive is gone, and
  `CloneVault.ExpiredButStored` a run in which it is not.
- A relative link leads back to its target if and only if the target does not
  bear the name of the page's own directory (`ArchivePaths.LinkRoundTrip`).
- A page cursor with an empty URL or a nil identifier is issued but refused when
  it comes back. `ReportPages.Walk` and `ReportPages.Ingest` say exactly when a
  walk fails for it, `ReportPages.BreaksSomewhere` for which reports some page
  size fails, and `ReportPages.UnaddressedBreaks` gives failing tables.
- The loop that gives a clone target its path would not end if its replacement
  were taken. `SiteTargets.SelectedPath` shows that this cannot happen for
  identifiers of one length.

## Assumptions

- A transaction is atomic and reads one time; in `site-database.ts` this needs
  serialisable execution, because a recount and an increment may otherwise
  interleave.
- SHA-256 is injective: hashes are modelled by what they digest. Generated
  UUIDs are fresh.
- A command or event message has one identifier per version of its scan, and the
  projection has the page limit of its command.
- URL normalisation, scope, collation, locale and layout inference are arbitrary
  functions; case folding is that of ASCII letters.

## Model

| member | source | states |
|---|---|---|
| `Frontier.Discover` | crawler/internal/postgres/store.go:811-867 | The URLs a result adds are distinct, not yet known, each the target of one of its followable links, and within the remaining budget; while budget is left, no target is missing |
| `Frontier.InsertPages` | crawler/internal/postgres/store.go:843-861 | The pages after an insertion are the pages before it and one per new URL, under the fresh identifiers |
| `Frontier.NewUrls` | crawler/internal/postgres/store.go:820-832 | Discovery never takes the execution past its page limit |
| `FrontierInvariant.AnalyticsConservation` | crawler/internal/postgres/store.go:735-801 | The analytics rows not yet delivered are those of the PERSISTING pages: expected = published + persisting |
| `FrontierInvariant.CountersSum` | crawler/internal/postgres/store.go:790-801 | The seven page counters add up to the discovered count |
| `EventLane.SnapshotOk` | crawler/internal/postgres/store.go:567-651 | A published snapshot passes every check of the Control Plane, and its public status is the stored one |
| `EventLane.PublishKeeps` | crawler/internal/postgres/store.go:567-635 | Whether a snapshot is published or held back by the one-second throttle, versions stay unique and rising and the last terminal event is exact |
| `EventLane.EventAt` | crawler/internal/postgres/store.go:567-635 | A terminal event is the last of its scan, carries the final version, and equals the final snapshot |
| `EventLane.ClaimableHead` | crawler/internal/postgres/store.go:1023-1066 | The event that may be claimed is the first one not yet delivered |
| `EventLane.StepKeepsValid` | crawler/internal/postgres/store.go:385-1265 | Every transaction on an execution keeps counters, page rows, analytics rows, status, discovery tree and event lane in order |
| `ProgressEvents.WrittenWhenDue` | crawler/internal/postgres/store.go:601-635 | After any transaction of a scan one event is written if there was progress and the latest event is a second old, tells another status, or the scan has ended; none otherwise. It tells status, counters, version and terminal code in full, and what was written before stays |
| `ProgressEvents.StatusShown` | crawler/internal/postgres/store.go:614-626 | In every reachable state past QUEUED the last event tells the stored status: no change of it is ever held back |
| `ProgressEvents.EventsSpaced` | crawler/internal/postgres/store.go:614-626 | Over a whole run, neighbouring events with one status are created at least 1000 ms apart |
| `PageOutcomes.CommitDecides` | crawler/internal/postgres/store.go:663-801 | A commit under a held lease puts the page back for another attempt if its error is transient and fewer than three attempts are used; else it accepts a result of up to four MiB, and refuses a larger one without a change |
| `PageOutcomes.OutcomeTold` | crawler/internal/postgres/store.go:720-725 | In every reachable state a page is or will be SUCCEEDED exactly if it has an accepted result that was not skipped, without an error and below status 400, and SKIPPED exactly if it was skipped; any other accepted result is or will be FAILED, and a transient one was the third attempt |
| `PageOutcomes.ClaimsOnTime` | crawler/internal/postgres/store.go:385-425 | Over whole runs a page becomes LEASED only from QUEUED, when it is due, before the deadline, within the concurrency, with one attempt and one generation more |
| `ScanEndings.FailedWithoutResult` | crawler/internal/postgres/store.go:1140-1185 | A page that is FAILED without an accepted result has had three leases, or its scan bears the code of its deadline or of a cancellation |
| `ScanEndings.LapsedPage` | crawler/internal/postgres/store.go:1127-1150 | A leased page whose time is up is QUEUED and due at once, or FAILED after its third attempt; any other page keeps its row |
| `ScanEndings.EndTold` | crawler/internal/postgres/store.go:965-986 | An ended scan is CANCELLED exactly if it bears the code of a cancellation; otherwise COMPLETED exactly if every page succeeded and FAILED exactly if none did; a completed one bears no code |
| `Deliveries.RowsMove` | crawler/internal/postgres/store.go:869-1103 | Over whole runs an analytics row or event is claimed only when it is due, taken back only when its lease has run out, put back dead exactly from the twentieth delivery on, and an event is acknowledged only under a running lease |
| `Deliveries.RetryWaits` | crawler/internal/postgres/store.go:1003-1103 | A row that its owner gives back is due at the retry time, DEAD exactly if it was delivered twenty times |
| `Deliveries.DeadAfterTwenty` | crawler/internal/postgres/store.go:1086-1103 | In every reachable state a DEAD row was delivered twenty times or more |
| `Deliveries.ClaimableExactly` | crawler/internal/postgres/store.go:1026-1043 | An event may be claimed if and only if it waits, is due, and is the first one that is not delivered |
| `Termination.StepRank` | crawler/internal/postgres/store.go:63-1243 | A weighted rank over pages and undiscovered slots never rises. It falls with every enabled claim, commit and analytics completion; with a cancellation if and only if something is queued or leased; with a reclamation if and only if it does not pass by an expired lease or, past the deadline, a queued page; and with no other transaction |
| `Termination.FirstCancelMovesNone` | crawler/internal/postgres/store.go:63-120 | A run whose first cancellation is applied to a RUNNING scan and leaves the rank as it was, because its only page is PERSISTING |
| `Termination.CrawlTerminates` | crawler/internal/postgres/store.go:680-719 | In any run of a scan at most eight transactions per budgeted page move a page |
| `Termination.StepAttempts` | crawler/internal/postgres/store.go:500-509 | A claim uses up exactly one attempt of one page, and nothing else does |
| `Termination.ClaimsBounded` | crawler/internal/postgres/store.go:1140-1150 | A scan performs at most three claims per budgeted page, and no page is leased more than three times |
| `Crawl.Conservation` | crawler/internal/postgres/store.go:311-365 | In every reachable state the counters equal the numbers of rows, sum to discovered <= max_pages, leased <= max_concurrency, and expected = published + persisting |
| `Crawl.FrontierIsLeast` | crawler/internal/postgres/store.go:811-867 | The URLs of a scan lie in every set that contains the seed and is closed under the links its accepted results reported |
| `Crawl.FrontierComplete` | crawler/internal/postgres/store.go:965-986 | A COMPLETED scan that met neither limit has visited exactly the least set containing the seed and closed under the reported in-scope links, and every page of it was fetched without an error below status 400 |
| `Crawl.ChainToSeed` | crawler/internal/postgres/store.go:843-861 | Every page has a chain of parents to the seed, as long as its depth, which is at most max_depth |
| `Crawl.TerminalIffQuiescent` | crawler/internal/postgres/store.go:637-651 | An execution is terminal exactly when nothing is queued, leased or persisting, and its public status is always the stored one |
| `Crawl.TerminalAbsorbs` | crawler/internal/postgres/store.go:157-159 | Once terminal, an execution never changes again but for the delivery of its events |
| `Crawl.CancellationIsFinal` | crawler/internal/postgres/store.go:63-144 | After an applied cancellation no page of the scan is ever queued, leased or discovered again |
| `Crawl.OrderedOutbox` | crawler/internal/postgres/store.go:1023-1085 | Versions rise, and an event that is claimed or delivered has every lower version delivered, so at most one is claimed |
| `Crawl.OneClaimable` | crawler/internal/postgres/store.go:1026-1043 | At most one event of a scan can be claimed at a time, so a claimed batch holds at most one per scan |
| `Acknowledgement.OnlyClaimsHold` | crawler/internal/postgres/store.go:1045-1066 | Nothing but the claim of an event makes an owner hold it |
| `Acknowledgement.NeverHeldAgain` | crawler/internal/events/publisher.go:72-74 | If every batch is claimed under an owner no batch was claimed under before, an owner that has lost an event never holds it again |
| `Acknowledgement.SupersededOwner` | crawler/internal/postgres/store.go:1068-1103 | Then an owner that has lost an event, by reclamation or otherwise, is superseded for good: its late acknowledgements and retries change nothing, at any later point of the scan |
| `Recovery.ReclaimEnds` | crawler/internal/postgres/store.go:1230-1243 | With nothing left to persist, one reclamation after the deadline and the last lease ends the scan |
| `Recovery.ReclaimDrains` | crawler/internal/postgres/store.go:1127-1228 | One reclamation after the deadline and the last lease leaves nothing queued and nothing leased |
| `Recovery.ScanCanEnd` | crawler/internal/postgres/store.go:1105-1265 | Every history of the store, from any time after it on, can go on with times that do not go back until a given scan is terminal, with the sweeper and one analytics worker alone: no transaction blocks it for good |
| `Ledger.GrantKeeps` | crawler/internal/postgres/store.go:432-509 | Leasing a page and a free slot under a fresh owner keeps the ledger: every owned slot has its page with the same owner and expiry, every running page lease its slot |
| `Ledger.ExtendKeeps` | crawler/internal/postgres/store.go:527-565 | Extending page and slot together keeps the ledger |
| `Ledger.ReleaseKeeps` | crawler/internal/postgres/store.go:690-752 | Giving back page and slot together keeps the ledger |
| `Ledger.CancelAllKeeps` | crawler/internal/postgres/store.go:86-123 | Ending all leases of a scan and giving back the slots of their owners keeps the ledger |
| `Ledger.SweepKeeps` | crawler/internal/postgres/store.go:1127-1228 | Sweeping expired slots keeps the ledger even when expired page leases of locked executions stay |
| `ClusterInvariant.TransactionKeeps` | crawler/internal/postgres/store.go:259-1265 | Every transaction of the store keeps every execution and the tie between page leases and slot leases in order, and is one transaction of each execution it touches |
| `ClusterInvariant.HistoryOk` | crawler/internal/postgres/store.go:259-1265 | The same in every state a store can reach from an empty one |
| `HostSafety.OwnersInjective` | crawler/internal/crawl/engine.go:105-109 | No two pages, of whatever scans, are leased to one owner |
| `HostSafety.SlotMatchesPage` | crawler/internal/postgres/store.go:385-525 | An owned slot is matched by a LEASED page with the same owner and the same expiry, and no other slot carries that lease |
| `HostSafety.HostConcurrency` | crawler/internal/postgres/store.go:432-449 | At most hostConcurrency pages of a host hold a lease that has not run out, across all scans |
| `HostSafety.LiveLeaseNeverStale` | crawler/internal/postgres/store.go:527-565 | A worker whose lease still runs is never told that it is stale: both row updates find their row |
| `HostSafety.OnlyIssuedLeasesPass` | crawler/internal/postgres/store.go:690-719 | A lease that passes both updates is the one ClaimPage returned under that owner, in both generations |
| `HostSafety.ReleasedWithinCancelled` | crawler/internal/postgres/store.go:121-123 | The guard for more released slots than cancelled leases never fires |
| `HostSafety.SweepTakesBack` | crawler/internal/postgres/store.go:1127-1228 | After a reclamation no slot is owned past its time, and no page is leased past its time unless its scan was locked |
| `ScanLives.ScanLives` | crawler/internal/postgres/store.go:259-1265 | Seen from one scan, a history of the store is a run of that scan: absent before its acceptance, and from then on, state by state, what its row goes through |
| `ScanLives.TerminalInStore` | crawler/internal/postgres/store.go:157-159 | In a history of the store, a terminal scan changes only by the delivery of its events |
| `ScanLives.CancellationInStore` | crawler/internal/postgres/store.go:63-144 | In a history of the store, a cancelled scan never queues, leases or discovers a page again |
| `ScanLives.WorkInStore` | crawler/internal/postgres/store.go:500-515 | In a history of the store, a scan is leased at most three pages and moved at most eight pages per budgeted page |
| `Commands.AcceptedOnce` | crawler/internal/postgres/store.go:281-287 | A scan command that was applied or put aside is a duplicate whenever it comes again; a valid one under its identifier with another payload is a collision; neither changes anything but the clock |
| `Commands.SecondCommand` | crawler/internal/postgres/store.go:292-305 | Another command for an accepted scan never starts it again: it is put aside if it asks for the same normalised URL under the version the scan stands at, and conflicts otherwise |
| `Commands.AcceptedStays` | crawler/internal/postgres/store.go:308-347 | From its acceptance on a scan has the seed, the host, the limits and the deadline of its command, within the policy, and a version not below it |
| `Commands.CancelledOnce` | crawler/internal/postgres/store.go:50-61 | A cancellation that was applied or put aside is a duplicate whenever it comes again, and a collision with another payload; neither changes anything but the clock |
| `Commands.CancelAnswered` | crawler/internal/postgres/store.go:63-84 | A new cancellation is not ready without the scan of its owner; it is applied exactly if the scan has not ended and stands below its version, and stale otherwise |
| `Commands.OlderIsStale` | crawler/internal/postgres/store.go:77-84 | Once a cancellation was applied, none of its version or a lower one is applied again, and the scan stays cancelled |
| `Commands.SlotsStay` | crawler/internal/postgres/store.go:348-355 | In every reachable store each host of a scan has its slots, as many as the host concurrency |
| `Commands.ClaimGranted` | crawler/internal/postgres/store.go:385-515 | A claim gets page and slot whenever the page waits and is due before the deadline and within the concurrency, and the slot may be visited again and is free or was held too long |
| `Commands.SeedClaimable` | crawler/internal/postgres/store.go:325-355 | A scan of a new host can begin at once: its seed may be claimed on every slot from its acceptance on |
| `HostRate.HistoryPaced` | crawler/internal/postgres/store.go:485-499 | Successive claims on one slot are at least hostDelay apart |
| `HostRate.HostVisitRate` | crawler/internal/postgres/store.go:432-499 | Any half-open interval of a given length holds at most hostConcurrency claims on a host per started hostDelay |
| `CrawlStore.Store.AcceptCommand` | crawler/internal/postgres/store.go:259-365 | The outcome and the new rows for every case: invalid, duplicate, collision, conflict, replay, new execution with its seed and slots |
| `CrawlStore.Store.AcceptCancellation` | crawler/internal/postgres/store.go:34-155 | The outcome and the new rows for every case, with the slots of the ended leases given back |
| `CrawlStore.Store.LowestSlot` | crawler/internal/postgres/store.go:432-449 | The chosen slot is free and no lower one is |
| `CrawlStore.Store.ClaimPage` | crawler/internal/postgres/store.go:385-525 | A claim leases one claimable page on the lowest free slot under new generations; none is returned only if no page could be claimed |
| `CrawlStore.Store.ExtendPageLease` | crawler/internal/postgres/store.go:527-565 | Both rows are extended, exactly when both still carry the lease, or nothing changes |
| `CrawlStore.Store.CommitPageResult` | crawler/internal/postgres/store.go:653-809 | The result is committed with the release of the slot, exactly when both rows still carry the lease and its analytics payload is not above four MiB; otherwise nothing changes |
| `CrawlStore.Store.PageResultRow` | crawler/internal/postgres/store.go:653-809 | The execution is requeued or staged as the retry rule says, with all its counters |
| `CrawlStore.Store.InsertDiscoveredPages` | crawler/internal/postgres/store.go:811-832 | The inserted rows are those of the newly discovered URLs, none past the depth limit or the budget |
| `CrawlStore.Store.FollowLinks` | crawler/internal/postgres/store.go:833-867 | The loop over the links inserts the discovered URLs in link order, each once, and counts them |
| `CrawlStore.Store.CompleteAnalytics` | crawler/internal/postgres/store.go:914-1001 | An acknowledged analytics row finalises its page; a stale acknowledgement changes nothing |
| `CrawlStore.Store.FinalizedRow` | crawler/internal/postgres/store.go:929-986 | The counters, the page's final status and the terminal test after an acknowledgement |
| `CrawlStore.Store.ClaimAnalytics` | crawler/internal/postgres/store.go:869-912 | Up to the limit, due rows are claimed one by one; fewer only when no other is due |
| `CrawlStore.Store.RetryAnalytics` | crawler/internal/postgres/store.go:1003-1021 | The row goes back to the queue, or is dead after twenty deliveries, exactly when its owner still holds it |
| `CrawlStore.Store.ClaimEvents` | crawler/internal/postgres/store.go:1023-1066 | Up to the limit, the first undelivered event of each scan is claimed; fewer only when no other is due |
| `CrawlStore.Store.CompleteEvent` | crawler/internal/postgres/store.go:1068-1084 | The event is delivered exactly when its owner holds it under a running lease |
| `CrawlStore.Store.RetryEvent` | crawler/internal/postgres/store.go:1086-1103 | The event goes back to the queue, or is dead after twenty deliveries, exactly when its owner still holds it |
| `CrawlStore.Store.ReclaimPageRows` | crawler/internal/postgres/store.go:1127-1166 | A pass over the page rows that counts on the way gives the rows and the counters of a reclamation, and tells whether any lease had expired |
| `CrawlStore.Store.FailOverdueRows` | crawler/internal/postgres/store.go:1168-1204 | The same for the queue of an execution past its deadline |
| `CrawlStore.Store.StatementsReclaim` | crawler/internal/postgres/store.go:1105-1265 | The statements in their order, and an event for every execution that one of them changed, make of an execution what one reclamation makes of it |
| `CrawlStore.Store.ReclaimExpired` | crawler/internal/postgres/store.go:1105-1265 | Run statement by statement over all executions, a reclamation is that of every execution for itself, and the sweep of every slot for itself; the store stays in order |
| `ControlPlane.ScanEntity.RequestCancellation` | backend/src/main/java/com/weblens/scan/entity/ScanEntity.java:151-163 | A local cancellation changes a queued or running scan only, and is refused once the scan has ended otherwise |
| `ControlPlane.ScanEntity.ApplyRemoteProjection` | backend/src/main/java/com/weblens/scan/entity/ScanEntity.java:192-237 | A newer snapshot replaces counters, status and version as the state machine allows; an older or refused one changes nothing |
| `ControlPlane.ScanEventService.Consume` | backend/src/main/java/com/weblens/messaging/ScanEventService.java:49-106 | Duplicates, collisions, stale versions and rejections leave the scan as it was; an accepted message is remembered with its payload |
| `ProjectionOrder.ConsumedStatus` | backend/src/main/java/com/weblens/scan/entity/ScanEntity.java:192-215 | Any applied message leaves the later of the two statuses in the order QUEUED, RUNNING, CANCEL_REQUESTED, ended, under its own higher version; any other message leaves the scan as it was |
| `ProjectionOrder.IgnoredExactly` | backend/src/main/java/com/weblens/scan/entity/ScanEntity.java:192-200 | A snapshot is ignored if and only if it is not newer than the projection or the projection has ended; an applied one gives it its version |
| `ProjectionOrder.ConsumedInRange` | backend/src/main/java/com/weblens/messaging/ScanEventService.java:76-90 | Whatever arrives, counters and analytics counts of a projection stay in range |
| `ProjectionOrder.RefusedExactly` | backend/src/main/java/com/weblens/messaging/ScanEventService.java:76-100 | A new message is refused exactly if it reads INDEXING, its counters are out of range, or it asks a queued projection to cancel; it is stale only if the scan has ended |
| `ProjectionOrder.ConsumedOnce` | backend/src/main/java/com/weblens/messaging/ScanEventService.java:53-63 | A consumed message is a duplicate when it comes again, and a collision under another payload; neither changes anything |
| `ProjectionOrder.StatusForward` | backend/src/main/java/com/weblens/scan/entity/ScanEntity.java:192-215 | Over a whole flow the status of a projection only moves forward, and an ended one is final |
| `ProjectionOrder.CancellationStays` | backend/src/main/java/com/weblens/scan/entity/ScanEntity.java:205-215 | A projection that reads CANCEL_REQUESTED reads so, or has ended, at every later moment, whatever events arrive |
| `ProjectionOrder.AskedIsCancelling` | backend/src/main/java/com/weblens/scan/entity/ScanEntity.java:151-163 | Asking to cancel makes any projection that has not ended read CANCEL_REQUESTED, and changes nothing else |
| `ControlPlane.Publisher.Reach` | backend/src/main/java/com/weblens/messaging/ScanEventService.java:49-106 | An event of the crawler is accepted by the consumer in every reachable state, however late |
| `ControlPlane.Publisher.Send` | crawler/internal/events/publisher.go:130-161 | A request counts as delivered only if the consumer has the event; a lost request changes nothing, a lost reply only the consumer |
| `ControlPlane.Publisher.Acknowledge` | crawler/internal/postgres/store.go:1068-1084 | Acknowledging after consumption keeps delivered events a subset of consumed ones |
| `ControlPlane.Publisher.PutBack` | crawler/internal/postgres/store.go:1086-1103 | Putting an event back keeps the pipeline in order |
| `ControlPlane.Publisher.PublishLane` | crawler/internal/events/publisher.go:92-118 | The lane is published and acknowledged in order up to the first failure, which is put back; the whole new state is given, and nothing is acknowledged that was not consumed |
| `Pipeline.NeverRejected` | backend/src/main/java/com/weblens/messaging/ScanEventService.java:78-83 | No event the crawler ever sent is rejected or taken for another message, however late or often it arrives; in particular queued + processed > discovered never fires |
| `Pipeline.VersionsRise` | backend/src/main/java/com/weblens/messaging/ScanEventService.java:67-71 | The projection's version never falls |
| `Pipeline.TerminalProjectionIsFinal` | backend/src/main/java/com/weblens/scan/entity/ScanEntity.java:192-237 | A terminal projection is never premature: the crawl has ended and every field of the projection tells its final state |
| `Pipeline.Convergence` | crawler/internal/postgres/store.go:567-635 | Once a scan is terminal and its outbox delivered, status, counters, version and terminal code of the projection equal the crawler's, despite throttling, retries, duplicates, expired leases and local cancellations |
| `CloneVault.PublishedIsStored` | capture-worker/src/database.ts:345-369 | Under any interleaving of staging, publication and collection, a PUBLISHED artifact was never claimed by the collector and its object is stored |
| `CloneVault.OneGenerationPublished` | capture-worker/src/database.ts:258-408 | Across a whole run a job publishes at most one generation, the one it names from then on |
| `CloneVault.LatePublicationRaces` | capture-worker/src/database.ts:345-369 | The time bound is exact: for every delay beyond four minutes between the start of a publication and its reading of the rows there is a run that publishes a claimed archive and then loses its object |
| `CloneVault.ExpiredMeansGone` | capture-worker/src/database.ts:635-656 | When the row of a claimed archive is deleted a served job reads EXPIRED; its published archive is deleted then if and only if the deleted generation is the published one |
| `CloneVault.ExpiredButStored` | capture-worker/src/database.ts:644-647 | A run in which a job reads EXPIRED while its published archive is not due and its object is stored |
| `VaultMoves.VaultsMove` | capture-worker/src/database.ts:158-408 | Over whole runs a capture is leased only with attempts left, for forty-five seconds, put back only before its third attempt and failed only after it, with its clone; a row is published only with more than five minutes left, claimed only when due, and deleted only once claimed |
| `VaultMoves.HeldCaptureStays` | capture-worker/src/database.ts:158-226 | While its lease runs, a capture changes only by the worker and generation that hold it |
| `VaultMoves.NewRow` | capture-worker/src/database.ts:228-256 | An artifact row begins staged for an hour, with its object stored, under the lease of the generation that the job names |
| `VaultMoves.FailedIsSpent` | capture-worker/src/database.ts:410-440 | With any delay of publications a capture has FAILED only after its third attempt |
| `VaultMoves.DeletionDecides` | capture-worker/src/database.ts:635-656 | Completing a deletion deletes the claimed row; an archive makes a served job read EXPIRED, a manifest changes no job |
| `VaultMoves.PublicationDecides` | capture-worker/src/database.ts:330-400 | The result of a running clone is published exactly if it was built and both rows are staged with more than five minutes left, complete or partial as it was built, for seven days; else its clone has failed. The capture is stored in either case |
| `CaptureStore.CaptureDatabase.StageReconstructionArtifacts` | capture-worker/src/database.ts:228-256 | Both artifact rows are inserted, or none when the lease is lost |
| `CaptureStore.CaptureDatabase.StageResult` | capture-worker/src/database.ts:258-408 | Both staged rows of the generation are published with the job, or nothing is |
| `CaptureStore.CaptureDatabase.ClaimReconstructionArtifactForDeletion` | capture-worker/src/database.ts:605-633 | A due row is claimed for thirty seconds, a staged one staying staged; none only if none is due |
| `CaptureStore.CaptureDatabase.CompleteReconstructionArtifactDeletion` | capture-worker/src/database.ts:635-656 | The row is deleted and, for an archive, the job reads EXPIRED |
| `CaptureStore.CaptureDatabase.RetryReconstructionArtifactDeletion` | capture-worker/src/database.ts:658-663 | The row waits another minute |
| `CaptureStore.CaptureDatabase.CollectOne` | capture-worker/src/index.ts:139-170 | The collector deletes the object before it completes the row, and puts the row back when the deletion fails |
| `SiteCloneInvariant.StepKeeps` | capture-worker/src/site-database.ts:160-1048 | Every transaction keeps counters, page rows, phase and artifacts of a job in order |
| `SiteCloneSafety.CountersRefineRecount` | capture-worker/src/site-database.ts:998-1034 | In every reachable state the incremental counters equal a recount; input bytes, rendering pages, pages and attempts respect their limits |
| `SiteCloneInvariant.IncrementIsRecount` | capture-worker/src/site-database.ts:998-1034 | Incrementing the counters for a page that has ended is a recount if and only if its row was not counted before |
| `SiteCloneSafety.PublishedMeansComplete` | capture-worker/src/site-database.ts:492-531 | A PUBLISHED job has every target it did not reject SUCCEEDED; a PARTIAL one has not. No reason of a rejection reads like a cancellation |
| `SiteCloneSafety.AssemblyInputFrozen` | capture-worker/src/site-database.ts:418-452 | From the claim of an assembly until the job ends, its pages and bundles never change |
| `SiteCloneSafety.BundlesKept` | capture-worker/src/site-database.ts:835-865 | While a job has not ended, a page has its bundle available exactly when it succeeded, so none is being deleted |
| `SiteCloneSafety.OneGenerationLive` | capture-worker/src/site-database.ts:492-588 | Across a whole run at most one generation of artifacts is ever PUBLISHED |
| `SiteCloneSafety.ExpiredMeansGone` | capture-worker/src/site-database.ts:865-898 | A job reads EXPIRED only when no artifact of it is PUBLISHED or DELETE_PENDING |
| `SiteCloneSafety.EndedStaysEnded` | capture-worker/src/site-database.ts:956-996 | A job that has ended never changes its status again, except from published to EXPIRED |
| `SiteCloneMoves.PageFails` | capture-worker/src/site-database.ts:394-409 | A held page that fails is QUEUED at the retry time with all counters unchanged while attempts are left; after the last it is FAILED and counted once |
| `SiteCloneMoves.FailedIsSpent` | capture-worker/src/site-database.ts:394-409 | In every reachable state a FAILED page has used up its retries, unless its bundle exceeded the input budget |
| `SiteCloneMoves.PageCompletes` | capture-worker/src/site-database.ts:344-392 | A held page is cancelled by a cancelling job, failed by a spent budget, and else succeeded with its bytes, counted exactly once |
| `SiteCloneMoves.PagesMove` | capture-worker/src/site-database.ts:266-416 | Over whole runs a page is leased only when it is due in a running job, for a minute and one more attempt; put back only with attempts left; and its bundle goes only once the job has ended |
| `SiteCloneMoves.HeldPageStays` | capture-worker/src/site-database.ts:266-416 | While its lease runs, a rendering page changes only by the worker and generation that hold it |
| `SiteCloneMoves.JobsMove` | capture-worker/src/site-database.ts:231-686 | Over whole runs a job changes its status only for the stated reasons: assembled only with a success, nothing open and a free phase; published only under a running lease; failed for want of pages only without a success; settled by its deadline only when it has passed |
| `SiteCloneMoves.PhaseFails` | capture-worker/src/site-database.ts:598-634 | A phase that fails is tried again at the retry time before its third attempt, and ends the job at the third; without the lease nothing changes |
| `SiteCloneMoves.LeasesMove` | capture-worker/src/site-database.ts:160-188 | A phase is leased only when it is due and no lease runs, under the next generation; only its holder extends it |
| `SiteCloneMoves.ArtifactsMove` | capture-worker/src/site-database.ts:492-912 | An artifact goes live only under a running assembly lease and for its retention, is claimed only when due, and is deleted or put back only while staged or pending |
| `SiteCloneMoves.NewArtifact` | capture-worker/src/site-database.ts:533-588 | An artifact row begins staged for a day, under a running assembly lease of its generation |
| `SiteCloneMoves.TargetsAdded` | capture-worker/src/site-database.ts:190-229 | Only the holder of a running ingestion lease adds targets, within the page limit; every target then has a row or clashes with one, each new row is that of a target, and no other row changes |
| `SiteCloneMoves.RowsDistinct` | capture-worker/src/site-database.ts:190-229 | In every reachable state no two pages of a job share ordinal, URL or path |
| `SiteCloneMoves.PublishedHasPage` | capture-worker/src/site-database.ts:418-452 | Every job that is or was published has a page that succeeded |
| `SiteCloneStore.SiteCloneDatabase.Recount` | capture-worker/src/site-database.ts:1023-1034 | The four aggregates over the page rows |
| `SiteCloneStore.SiteCloneDatabase.RefreshJobCounters` | capture-worker/src/site-database.ts:1023-1034 | The counters become a recount, nothing else changes |
| `SiteCloneStore.SiteCloneDatabase.ClaimIngestion` | capture-worker/src/site-database.ts:160-178 | A due, free ingestion is leased under the next generation, or nothing changes |
| `SiteCloneStore.SiteCloneDatabase.AddTargets` | capture-worker/src/site-database.ts:190-229 | All targets that clash with no row are added, or none when the lease is lost or the page limit would be passed |
| `SiteCloneStore.SiteCloneDatabase.FinishIngestion` | capture-worker/src/site-database.ts:231-264 | The job runs with its targets counted, or fails without any, exactly while the lease is held |
| `SiteCloneStore.SiteCloneDatabase.ClaimPage` | capture-worker/src/site-database.ts:266-333 | Expired leases are taken back with a recount, then one due page is leased within the job's concurrency; none only if none could be |
| `SiteCloneStore.SiteCloneDatabase.CompletePage` | capture-worker/src/site-database.ts:344-392 | Accepted, over budget, cancelled or stale: the new rows and counters of every case |
| `SiteCloneStore.SiteCloneDatabase.FailPage` | capture-worker/src/site-database.ts:394-416 | The page is requeued while attempts are left, and fails for good after the last |
| `SiteCloneStore.SiteCloneDatabase.ClaimAssembly` | capture-worker/src/site-database.ts:418-452 | A job without a success fails; one with nothing open is leased for assembly under the next generation |
| `SiteCloneStore.SiteCloneDatabase.StageArtifacts` | capture-worker/src/site-database.ts:533-588 | The generation has exactly the given files, all staged, or nothing changes |
| `SiteCloneStore.SiteCloneDatabase.PublishArtifacts` | capture-worker/src/site-database.ts:492-531 | The staged rows of the generation go live and the job ends PUBLISHED or PARTIAL, exactly under a running lease |
| `SiteCloneStore.SiteCloneDatabase.RetryPhase` | capture-worker/src/site-database.ts:598-634 | The phase is given back, or the job fails after the third attempt, and its staged rows may be collected |
| `SiteCloneStore.SiteCloneDatabase.ReconcileCancellation` | capture-worker/src/site-database.ts:636-686 | Deadline, waiting pages and settlement, in this order, with a recount before the job goes on or ends |
| `SiteCloneStore.SiteCloneDatabase.ClaimObjectForDeletion` | capture-worker/src/site-database.ts:808-863 | A due artifact is claimed first, else a due bundle of an ended job; none only if nothing is due |
| `SiteCloneStore.SiteCloneDatabase.CompleteObjectDeletion` | capture-worker/src/site-database.ts:865-898 | The row follows its object, and the job expires with its last artifact |
| `DesignSelection.CanonicalPartition` | capture-worker/src/design-clone.ts:109-233 | Selected and rejected together hold each input page exactly once, the budget branch included |
| `DesignSelection.SelectionUnique` | capture-worker/src/design-clone.ts:422-446 | Locale, selection and rejections depend on the set of pages alone, so any permutation of the input gives the same result |
| `DesignSelection.SelectedDistinct` | capture-worker/src/design-clone.ts:179-216 | No two selected pages share an identity, nor role, template and layout hint |
| `DesignSelection.DuplicatesTrace` | capture-worker/src/design-clone.ts:179-216 | Unless the budget cuts, every duplicate gives way to a better page of its identity and that one to a selected page of its group |
| `DesignSelection.CandidateOrder` | capture-worker/src/design-clone.ts:422-446 | The comparison of candidates is a strict total order on pages with different identifiers |
| `DesignPreference.BetterIsBefore` | capture-worker/src/design-clone.ts:422-446 | The order of candidates is: no query before a query, own canonical before another, then the class of the status, the shorter URL, the collation, and the identifier |
| `DesignPreference.SelectedExactly` | capture-worker/src/design-clone.ts:109-233 | A page is selected exactly if it is usable, better than every other usable page of its identity and every other such page of its role, template and layout, and not cut off by the budget |
| `DesignPreference.WorseIsLeftOut` | capture-worker/src/design-clone.ts:179-195 | Of two usable pages with one identity the worse is not selected, and is rejected as a canonical duplicate or query variant unless the budget cuts it off |
| `DesignPreference.ReasonsHold` | capture-worker/src/design-clone.ts:130-225 | Every rejection gives a reason that is true of its page |
| `DesignSelector.PickIdentities` | capture-worker/src/design-clone.ts:179-195 | The first loop keeps exactly the best candidate of every identity and gives every other its reason |
| `DesignSelector.PickGroups` | capture-worker/src/design-clone.ts:197-206 | The second loop keeps exactly the best winner of every role, template and hint |
| `DesignSelector.CutLast` | capture-worker/src/design-clone.ts:216-225 | With a limited budget the last page in page order leaves wherever it was |
| `DesignSelector.SelectDesignPages` | capture-worker/src/design-clone.ts:109-233 | The loops compute the one selection that the set of pages determines |
| `Representatives.SelectRepresentatives` | capture-worker/src/site-archive.ts:442-463 | Exactly the first page of every layout is kept, in order, and the others are rejected |
| `Representatives.KeptExactly` | capture-worker/src/site-archive.ts:442-463 | A page is kept exactly if no page of its role, template and fingerprint has a lower ordinal, pages without a design always; the kept ones are in the order of their ordinals, the others are rejected |
| `Representatives.RepresentsUnique` | capture-worker/src/site-archive.ts:442-463 | Any permutation of the captured pages gives the same result |
| `Representatives.LayoutKept` | capture-worker/src/site-archive.ts:442-463 | Every captured page has exactly one kept page of its layout, not behind it; pages without a design are always kept |
| `SiteTargets.SelectedPath` | capture-worker/src/site-worker.ts:111-114 | A page gets its own path, the root's only if no page before has it; one replacement is always enough, so the loop ends |
| `SiteTargets.RejectedPath` | capture-worker/src/site-worker.ts:125-128 | A rejected page always gets the first path tried |
| `SiteTargets.PathsDiffer` | capture-worker/src/site-worker.ts:111-128 | Two targets never share a path, whatever the case of their letters |
| `SiteTargets.PlanTargets` | capture-worker/src/site-worker.ts:97-140 | One target per page with its ordinal and path, or the root alone when nothing was selected |
| `ResourceAliases.ResolveEnds` | capture-worker/src/site-archive.ts:629-637 | Aliases that each led to an unaliased path when made never form a circle: following them ends at an unaliased path |
| `ResourceAliases.AddRedirects` | capture-worker/src/site-archive.ts:284-290 | A new alias redirects exactly the trails that ended at the aliased path |
| `ResourceAliases.ResolveResourceAlias` | capture-worker/src/site-archive.ts:629-637 | The loop gives the end of the trail, and fails exactly when the trail is a circle |
| `ResourceAliases.AliasResources` | capture-worker/src/site-archive.ts:227-252 | If equal paths carry equal contents, every file leads in at most one step to the first file with its content |
| `StylesheetAliases.RewriteSettles` | capture-worker/src/site-archive.ts:585-627 | A rewritten stylesheet refers to no aliased path, and one that refers to none is left as it is |
| `StylesheetAliases.Round` | capture-worker/src/site-archive.ts:272-290 | One pass keeps every body equal to its original up to aliases, and leaves fewer unaliased stylesheets whenever it changes something |
| `StylesheetAliases.AliasStylesheets` | capture-worker/src/site-archive.ts:270-292 | The loop ends; no kept stylesheet refers to an aliased path, kept stylesheets with equal bodies are one path, and following aliases always ends |
| `StylesheetAliases.ReplacementReadsAlike` | capture-worker/src/site-archive.ts:270-292 | An aliased stylesheet reads, alias by alias, like the kept one that replaces it |
| `ArchiveShards.WrittenPaths` | capture-worker/src/site-archive.ts:303-341 | Every path is written once, and no path is left out |
| `ArchiveShards.Place` | capture-worker/src/site-archive.ts:188-196 | The open shard takes the file if it fits, else the next number is opened with it |
| `ArchiveShards.Pack` | capture-worker/src/site-archive.ts:303-341 | Either every written file is in exactly one shard, in order, in shards numbered from one within their limit; or the first file that cannot be written decides which error |
| `ArchiveShards.NextFitBound` | capture-worker/src/site-archive.ts:188-196 | (n - 1) times the shard limit is less than twice the estimated bytes |
| `ArchivePaths.VariantsDiffer` | capture-worker/src/static-clone.ts:357-367 | All variants of a path differ from it and from each other, whatever the case of their letters |
| `ArchivePaths.VariantShape` | capture-worker/src/static-clone.ts:357-367 | A variant keeps folder and extension: the number goes before the last dot, or to the end of a name without an extension |
| `ArchivePaths.DeduplicatePath` | capture-worker/src/static-clone.ts:357-367 | The result is the first path tried that is not taken, and there are at most as many tries as taken paths plus one |
| `ArchivePaths.LinkRoundTrip` | capture-worker/src/static-clone.ts:369-372 | A relative link, followed from the page's directory, leads back to its target if and only if the target is not named like that directory |
| `StaticPlan.PlanStaticClone` | capture-worker/src/static-clone.ts:52-97 | What becomes of every resource, given the files before it: skipped with its reason, sharing a file, or a file of its own on the first free path; at most 100 files within the byte budget |
| `StaticPlan.SharedPaths` | capture-worker/src/static-clone.ts:52-97 | No planned path is the page's, and two are equal, ignoring case, if and only if content addressing is on, both are or are not stylesheets, and they have the same bytes and, if stylesheets, the same URL |
| `StaticPlan.LinksLead` | capture-worker/src/static-clone.ts:369-372 | Every replacement belongs to the last placed resource with that URL and, followed from the page's directory, is its local path if and only if that path does not bear the name of the directory |
| `StaticPlan.ContentAddressedLinksLead` | capture-worker/src/static-clone.ts:52-97 | With content-addressed inputs all replacements, followed from the page's directory, are the local paths of their resources if and only if none of these bears the name of that directory; none does unless the page lies in a folder among the assets |
| `ReportPages.ListPages` | crawler/internal/analytics/reports.go:103-172 | The first rows after the cursor up to the limit, and whether there are more |
| `ReportPages.ReadPage` | crawler/internal/httpapi/server.go:127-131 | A page with the cursor of its last row exactly when more follow; a cursor that is empty, nil or of other filters is refused |
| `ReportPages.NextPage` | crawler/internal/analytics/reports.go:103-108 | The rows selected after a row's cursor are those behind it in the report |
| `ReportPages.Walk` | crawler/internal/httpapi/server.go:281-308 | Following the cursor yields every filtered row once, in order, for any page size; it fails exactly when a page that is not the last ends with a row whose cursor is refused |
| `ReportPages.UnaddressedBreaks` | crawler/internal/httpapi/server.go:281-308 | Tables whose rows carry no URL break every walk that needs a second page; an ingestion with maxPages from 500 on needs one as soon as there are more than 500 rows |
| `ReportPages.BreaksSomewhere` | crawler/internal/httpapi/server.go:127-131 | Walks over a report succeed for every page size if and only if each of its rows, but for the last, has a URL and an identifier |
| `ReportPages.Collect` | capture-worker/src/site-worker.ts:88-94 | The rows collected so far and those of the page, cut at the limit, and whether one was cut off |
| `ReportPages.Ingest` | capture-worker/src/site-worker.ts:82-96 | Ingestion collects exactly the first maxPages rows and reports the limit reached if and only if there are more; it fails exactly when a page it reads on from ends with a row whose cursor is refused |

## Left out

- The order in which due pages, events, batches and objects are claimed, fairness and priorities: a claim takes any due row.
- Retry delays and jitter: the next attempt may be at any time.
- Analytics back-pressure, report queries other than the page list, migrations and configuration.
- Fetching, robots, HTML, CSS and URL parsing, browsers, S3 and ClickHouse: foreign code, present as parameters.
- The retention month of a row, and identifiers that no guard reads.
- The publisher's sorting of a batch and its parallel lanes: a batch holds one event of a scan at most (`Crawl.OneClaimable`), so a lane is one scan's.
- The site clone's own event outbox, its progress report, and its consumer in the Control Plane.
- The interleaving of several jobs in one call of reconcileCancellations, claimPage, claimAssembly or the collector: jobs share no row, and each call is modelled for one job.
- Eventual termination of a site clone past its deadline: the code can cancel and re-arm the same job again and again.
- Collection of a site clone's staged artifacts against their publication: it needs a publication within a day of its staging.
- The number of analytics rows of one page: a page has one at a time.
- A site clone page whose row was changed by hand between claim and failure: failPage reads the attempt count that was claimed, which is the row's while the lease generation is.
- buildSiteArchives: the reading and rewriting of documents, the route map, the manifest, and the real size of a closed ZIP shard.
- rewriteArchiveReference: the parsing of a reference; a stylesheet is a sequence of texts and references to archive paths in lower case.
- buildStaticClone and the resource bytes: a plan knows sizes only.
- inferExtension, sanitizePathComponent and urlToLocalPath: the desired path is an input.
- ReportPages.Walk: the table does not change during the walk, as the report of a finished scan does not.
- CrawlStore.Store.CommitPageResult: of the analytics payload only its encoded length is modelled.
