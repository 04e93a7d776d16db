# NetLens: a model and its proofs

NetLens watches firewalls, VPN tunnels and inventories through external interfaces. Most of it is
input and output; this project models the parts that decide something, and proves what they promise:

- VPN tunnels: a stream of observations becomes a current row and an append-only transition log, which
  retention prunes and the timeline integrates over a period (`Vpn*.dfy`). The main result goes from
  observations through tables and log to the reported figures: for any history and any period they are
  those of the observed step function exactly when every change within the period is in the retained
  log and some row tells the period's status.
- The exclusive FMC section and the reset that clears and refills caches while lock-free readers run
  (`FmcSection.dfy`, `FmcProgress.dfy`, `FmcOutcomes.dfy`), as a step system over any number of jobs, resets
  and readers.
- Search filters: CIDR text to wildcard or range clauses, and the log query, as query trees with a
  meaning on documents (`Cidr.dfy`, `Text.dfy`, `Decimals.dfy`, `DottedText.dfy`, `TextRanges.dfy`,
  `Opensearch.dfy`; prefix notation is that of section 3.1 of RFC 4632).
- The server-sent-event writer and the incremental reader in the browser (`Sse.dfy`, `SseFrames.dfy`), for
  the subset of section 9.2 of the WHATWG HTML Living Standard that the two use.
- The FMC client's shared request pacing and its offset paginator (`FmcPacer.dfy`, `FmcPaginator.dfy`).
- The alert lifecycle and its tables (`Alerts.dfy`, `AlertEffects.dfy`, `AlertRuns.dfy`).
- The merge of partial collections into the cached dashboard (`ScopeMerge.dfy`, `ScopeMergeFields.dfy`,
  `ScopeMergeRuns.dfy`).
- The two-pass layout of the inventory graph (`GraphLayout.dfy`, `GraphContents.dfy`, `GraphGeometry.dfy`,
  `GraphSpacing.dfy`, `GraphTree.dfy`).
- Field differences of audit records (`AuditDiff.dfy`), the request limiter (`RateLimit.dfy`) and the
  migration runner (`MigrationNames.dfy`, `Migrations.dfy`, `MigrationRunner.dfy`).

Conventions. Times are integers in microseconds, except in the request pacer and the layout, which use
exact reals. Tables and caches are sequences and maps, the FMC server is an arbitrary or an honest function,
and asynchronous tasks are steps. Where the source changes state in loops, the model has methods and
classes, each proved against a function; the lemmas are about those functions.

Where the code is only right under a condition, the condition is stated and proved to be exact:

- `VpnEndToEnd.TimelineMatchesObservations`: a change within the period that was pruned, or that is the
  first sighting, is not in the log; more rows than the analytics take; a period without any row that
  tells its status reads UNKNOWN. `VpnBlindPeriods.dfy` has the runs that go wrong.
- `VpnRepositoryRuns.SnapshotKeepsChainExactlyWhen`: several reports of one tunnel in one snapshot, or a
  late snapshot.
- `VpnFlapping.FlapCountersAreExactExactlyWhen`: a flap window below one second.
- `Opensearch.CidrFilterIsRightExactlyWhen`: a range over addresses kept as text, other than a few small
  blocks (`TextRanges.TextRangeIsSafe`).
- `FmcPaginator.HonestServerIsReadExactly`: 10,000 full pages.
- `FmcProgress.PartialJobsEraseNothingExactlyWhen`: a swallowed failure to read the cached dashboard while a
  partial collection is merged, although the merge is documented to keep partial scopes from erasing state
  (backend/app/integrations/fmc/service.py:423).
- `AlertRuns.RowsFitExactlyFromOne`: a reopen threshold below one. `AlertRuns.FlappingLastsExactlyWhen` and
  `AlertRuns.RowsRecordExactlyWhen`: two domains that list one alert id.
- `AuditDiff.AdditionReported` and `AuditDiff.DeletionReported`: values that count as false.

`FmcSection.RefetchedDashboardIsFresh` excepts a cache entry that a reset could neither delete nor, for
discovery, rewrite; `FmcSection.FailedDeleteLeavesStaleData` and `FmcSection.KeptDiscoveryIsReused` are runs
in which the one and the other leave old data, so both exceptions are needed.

## Model

| member | source | states |
|---|---|---|
| Vpn.StoredStateReadsBack | backend/app/monitoring/vpn.py:41-52 | every state's stored name normalises back to that state, so comparing rows by state is comparing them by text |
| Vpn.VocabularyIsExact | backend/app/monitoring/vpn.py:41-52 | a text reads as UP, DOWN, DEGRADED or FLAPPING exactly when it is the stored name, or for UP and DOWN that name after TUNNEL_, or ACTIVE and INACTIVE; any other text reads as UNKNOWN |
| Vpn.SortIsStable | backend/app/monitoring/vpn.py:104 | sorting by time keeps every transition and keeps the order of transitions at one time |
| Vpn.WalkTransitions | backend/app/monitoring/vpn.py:105-131 | the loop stops at the first transition past the period, with the tallies of all segments closed before |
| Vpn.WalkMeaning | backend/app/monitoring/vpn.py:111-136 | the tallies and lists the loop keeps are those of the segments into which the transitions cut the period, all but the last, which stays open |
| Vpn.CalculateServiceMetrics | backend/app/monitoring/vpn.py:91-156 | an end before the start is an error; otherwise the figures are sums, counts and maximum over the segments of the period, the last segment counting as an outage but not as a completed one |
| VpnBounds.SegmentsTile | backend/app/monitoring/vpn.py:111-136 | the segments tile the period; truncating each to seconds loses less than a second per segment, nothing at whole-second times |
| VpnBounds.MetricsFillThePeriod | backend/app/monitoring/vpn.py:104-146 | for any transitions and any microsecond period, up, down and unknown seconds never exceed the period, miss less than a second per segment and fill it at whole-second times; the transition count is the number of segments the loop closed |
| VpnBounds.RunsAreWhole | backend/app/monitoring/vpn.py:111-136 | between whole-second observations every run but the open last one lasts whole seconds |
| VpnBounds.AgreementInTicks | backend/app/monitoring/vpn.py:111-146 | what agreement with the observations means in microseconds: no figure is overstated, each loses less than a second per run of its bucket and nothing at whole-second times, and the longest outage is the truncated length of the longest stretch that was DOWN |
| VpnObserved.RunsCountTicks | backend/app/monitoring/vpn.py:102-103 | the maximal runs of the step function "status at the latest observation" hold exactly the ticks of each bucket |
| VpnObserved.BucketsPartitionThePeriod | backend/app/monitoring/vpn.py:159-164 | every tick of a period falls in exactly one of the up, down and unknown buckets |
| VpnObserved.TruncationLoss | backend/app/monitoring/vpn.py:117-119 | second-truncated lengths of runs lose less than a second each, and nothing for whole-second runs |
| VpnObserved.LongestDownIsLongestOutage | backend/app/monitoring/vpn.py:145 | the longest DOWN run is a stretch that is DOWN throughout, and no longer stretch is |
| VpnRepository.Repository.PersistVpnSnapshot | backend/app/monitoring/repository.py:484-580 | the loop over a snapshot, with its lookups made beforehand, leaves exactly the tables of the specification: rows upserted, transitions appended, counters kept |
| VpnRepository.Repository.RowValues | backend/app/monitoring/repository.py:510-573 | the values of one upsert and its transition, branch by branch |
| VpnRepository.SnapshotPerTunnel | backend/app/monitoring/repository.py:505-580 | a snapshot changes each tunnel's row and log only by that tunnel's own reports, and leaves tunnels it does not report alone |
| VpnRepository.ReportedWordIsStored | backend/app/monitoring/repository.py:505-573 | what a snapshot leaves for a tunnel it reports once, word by word: UP, TUNNEL_UP and ACTIVE store UP and the time last up, their counterparts DOWN and the time last down, any unknown word UNKNOWN; a change is logged and counted |
| VpnRepository.RetentionPerTunnel | backend/app/monitoring/retention.py:36-38 | the transition delete prunes each tunnel's log on its own |
| VpnRepository.RetentionOnlyDeletes | backend/app/monitoring/retention.py:36-38 | the delete keeps exactly the rows from the cutoff on, each as often and in the order it was |
| VpnRepository.Repository.RunRetention | backend/app/monitoring/retention.py:36-47 | for the transition table: the rows younger than the retention days, at least one, stay as often and in the order they were, the others go, and the count returned is how many went |
| VpnRuns.TransitionsFollow | backend/app/monitoring/repository.py:518-536 | the logged changes, read as a step function, are the observed status at every time |
| VpnRuns.SuffixGivesSameState | backend/app/monitoring/retention.py:36-38 | a pruned log gives the same status at every time the pruned part is past |
| VpnRuns.HistoryMeaning | backend/app/monitoring/repository.py:505-580 | in every reachable state, with retention runs anywhere, the row is the one the observations call for, times last up and last down included, and the log is the observed changes without a prefix older than some cutoff used |
| VpnRuns.LogIsAChain | backend/app/monitoring/repository.py:517-544 | in every reachable state the log is a chain: times increase, each previous status is the prior new one and differs from the new one, the last new one is the current status; unpruned, it holds as many rows as the row's count and its first is measured from the first sighting |
| VpnRuns.DurationsTelescope | backend/app/monitoring/vpn.py:66-69 | at whole-second times the recorded durations add up to the time since the first one began |
| VpnFlapping.FlapCountersAreExact | backend/app/monitoring/repository.py:491-544 | after every run the stored flag is flapping as defined on the whole log at the latest observation, and the flap count is the number of rising edges of that flag |
| VpnFlapping.PureFlagIsCount | backend/app/monitoring/vpn.py:72-88 | the definition of flapping on the whole log is the repository's windowed count |
| VpnFlapping.FirstSightingIsNotFlapping | backend/app/monitoring/repository.py:514 | with a positive threshold no tunnel starts out flapping, so every episode begins with a counted edge |
| VpnFlapping.FlapCountersAreExactExactlyWhen | backend/app/monitoring/vpn.py:82 | flag and count are exact for all histories if and only if the window is at least one second: the definition raises a shorter window to one second, the repository does not |
| VpnTimeline.VpnTimeline | backend/app/monitoring/service.py:75-147 | the analytics of a tunnel: the first 100,000 rows of the period, started from the last transition at or before the start, else the first row's previous status, else the current status when it is old enough, else UNKNOWN |
| VpnTimeline.SegmentsAreRuns | backend/app/monitoring/vpn.py:111-136 | when the log gives the observed status throughout a period, the loop's segments are exactly the maximal runs of the observed step function |
| VpnTimeline.MetricsAgree | backend/app/monitoring/vpn.py:122-149 | figures computed from such a log agree with the observations: seconds of UP, of DOWN and of every other status, changes, the longest outage, and the lengths, in order, of the UP and DOWN runs that ended; a zero-length last segment counts for nothing |
| VpnEndToEnd.InitialStatusIsObserved | backend/app/monitoring/service.py:123-137 | the status the timeline starts from is the observed one, unless every retained transition lies after the period |
| VpnEndToEnd.ChangesFollow | backend/app/monitoring/repository.py:518-536 | the first sighting and the changes after it, read as a step function, are the observed status at every time, before the first sighting too |
| VpnEndToEnd.HistoryIsKept | backend/app/monitoring/retention.py:36-38 | after any history the log holds the last of the changes, and the row their last status and time |
| VpnEndToEnd.LogGivesLaterStatus | backend/app/monitoring/retention.py:36-38 | the retained log gives the observed status from the last change it does not hold |
| VpnEndToEnd.TimelineMatchesObservations | backend/app/monitoring/service.py:75-147 | for any history and any period, whatever was pruned and whenever the tunnel was first seen, the figures, the completed UP and DOWN lengths and the flapping flag are those of the observed step function if and only if every change within the period is in the retained log, its rows keep to the row limit, and some row tells its status (or the status is neither UP nor DOWN anyway, or the period is below a second) |
| VpnEndToEnd.FlappingIsObserved | backend/app/monitoring/vpn.py:72-88 | where every change of the period is logged, the reported flag says whether the observed status changed three times in its last fifteen minutes |
| VpnEndToEnd.RecentChangesAreLogged | backend/app/monitoring/retention.py:36-38 | in a period from the first sighting and the last cutoff on, every change is in the retained log |
| VpnEndToEnd.UncoveredPeriodReadsUnknown | backend/app/monitoring/service.py:128-137 | a period about which no row says anything is reported as UNKNOWN from end to end, without transitions or outages |
| VpnBlindPeriods.PrunedChangeMisleads | backend/app/monitoring/service.py:128-137 | a run in which a pruned change lies in the period: ten seconds DOWN are reported as fifteen, the next row's previous status being taken back to the start |
| VpnBlindPeriods.FirstSightingMisleads | backend/app/monitoring/service.py:128-137 | a period that begins before the first sighting of a tunnel that never changed is reported as UNKNOWN from end to end |
| VpnRepositoryRuns.RepositoryHistoryPerTunnel | backend/app/monitoring/repository.py:484-580 | a history of snapshots and retention runs over all tunnels is, for each tunnel, the history of that tunnel alone |
| VpnRepositoryRuns.RepositoryTimelineMatchesObservations | backend/app/monitoring/service.py:75-147 | the main result for the repository: every tunnel, every orderly history, every period |
| VpnRepositoryRuns.RecentPeriodsOfTheRepository | backend/app/monitoring/retention.py:36-38 | for periods from the first sighting and the last cutoff on, the condition is that the row limit is kept and some row tells the status |
| VpnRepositoryRuns.RepositoryFlapCountersAreExact | backend/app/monitoring/repository.py:491-544 | flag and flap count of every tunnel in every reachable state of the repository |
| VpnRepositoryRuns.SnapshotKeepsChainExactlyWhen | backend/app/monitoring/repository.py:505-544 | a snapshot keeps a tunnel's log a chain if and only if repeated reports agree with the stored status up to the last one and a change is later than the last logged one |
| FmcSection.StepKeepsInv | backend/app/scanner/scheduler.py:567-629 | every step of every job, reset, reader, fault, expiry and crash keeps exclusion, freshness, progress and what readers hold |
| FmcSection.RunKeepsInv | backend/app/scanner/scheduler.py:752-791 | every state reached by any interleaving satisfies that invariant |
| FmcSection.SectionIsExclusive | backend/app/scanner/scheduler.py:752-791 | at most one process is inside the section and the lock is held exactly by it, so every exit, failure and death frees it |
| FmcSection.RefetchedDashboardIsFresh | backend/app/scanner/scheduler.py:574-609 | while the status says refetching or completed, it lists the refetched scopes in order and everything in the dashboard cache was collected after that reset's clear, unless that reset left a dashboard entry it could not delete, or a discovery entry it could neither delete nor rewrite |
| FmcSection.ReadersServeEmptyOrFresh | backend/app/integrations/fmc/service.py:47-63 | a reader that saw queued or clearing serves an empty dashboard; one that saw refetching or completed serves only data collected after that clear, with the same exception |
| FmcSection.FailedDeleteLeavesStaleData | backend/app/integrations/fmc/service.py:152-156 | a run in which the swallowed failure to delete the dashboard entry leaves data from before the reset under a refetching status |
| FmcSection.KeptDiscoveryIsReused | backend/app/integrations/fmc/service.py:152-156 | a run in which the discovery entry is neither deleted nor rewritten, and the health refetch puts its old data into the dashboard under a refetching status |
| FmcProgress.ReadersServeWhatStood | backend/app/integrations/fmc/service.py:47-63 | in every run, a reader serves exactly the dashboard entry that stood at its second read, or nothing if that read failed, unless the status it saw was queued or clearing; then it serves nothing |
| FmcProgress.StoredDataIsServed | backend/app/integrations/fmc/service.py:47-63 | while no job or reset works and nothing expires, a reader whose accesses succeed serves the data that is stored, unless it saw queued or clearing |
| FmcProgress.DashboardIsNotLost | backend/app/integrations/fmc/service.py:240-300 | without resets and expiry a dashboard once stored stays stored, whatever jobs run, fail, raise or die |
| FmcProgress.JobStoresWhatSucceeds | backend/app/integrations/fmc/service.py:240-300 | a job alone, for every combination of failing accesses: nothing is stored without the discovery entry it needs or when its collection fails; otherwise the dashboard becomes its collection with what it read of the dashboard, so that a failed read drops what other scopes had stored; the lock is given back |
| FmcProgress.PartialJobsEraseNothingExactlyWhen | backend/app/integrations/fmc/service.py:273-293 | a partial collection erases nothing others stored if and only if it stores nothing, its read of the dashboard succeeds, or it holds all of it itself |
| FmcProgress.UndisturbedResetCompletes | backend/app/scanner/scheduler.py:574-609 | from any state with a free lock, a reset leaves a dashboard of its own six collections, the first of them as discovery, and the status completed with all scopes in order |
| FmcOutcomes.WaitersGetTheLock | backend/app/scanner/scheduler.py:752-791 | in every run a reset, or a job told to wait, keeps waiting until it gets the lock or dies |
| FmcOutcomes.ImpatientJobsAreSkipped | backend/app/scanner/scheduler.py:752-791 | any other job is skipped exactly while the lock is held, which changes nothing else, and runs exactly while it is free |
| FmcOutcomes.ReportsTellTheEnd | backend/app/scanner/scheduler.py:598-626 | in every run a reset reports completed with all seven scopes in order exactly when it got through to the unlock, and failed with none otherwise; a lost report leaves the status as it was |
| FmcOutcomes.QueuedResetHidesDashboard | backend/app/integrations/fmc/service.py:47-63 | from the moment a reset is queued until something is refetched, reported, interrupted or expires, readers that begin serve nothing, whatever the caches hold |
| FmcOutcomes.ExpiryIsFelt | backend/app/integrations/fmc/service.py:47-63 | after the status expired a reader serves the dashboard whatever the status was; after the dashboard did, nothing; and after the discovery entry did, a job that needs it leaves the caches alone |
| Cidr.BlockIsLeadingBits | backend/app/utils/cidr.py:50-55 | the addresses from network to broadcast are exactly those with the same leading bits |
| Text.SplitThenJoin | frontend/src/api.ts:671 | joining the pieces of a split gives the text back, and no piece holds the separator |
| DottedText.DottedReadsBack | backend/app/utils/cidr.py:53-54 | the dotted text of an address reads back as the address |
| DottedText.DottedIsCanonical | backend/app/utils/cidr.py:53-54 | only the dotted text of an address reads as that address |
| DottedText.WildcardMeansMembership | backend/app/utils/cidr.py:27-47 | for /8, /16 and /24 the pattern matches an address's text if and only if the address is in the network |
| DottedText.RangeMeansMembership | backend/app/utils/cidr.py:50-55 | for every prefix length the two bounds, read as addresses, enclose exactly the network |
| TextRanges.TextRangeMeansMembershipExactlyWhen | backend/app/utils/cidr.py:50-55 | compared as texts, the bounds enclose exactly the network's addresses if and only if the prefix is /25 or longer and the last octets are one, are 0 and 1, or are from 26 on with all digits but the last in common |
| Opensearch.CidrFilterMeansMembership | backend/app/utils/cidr.py:58-84 | over address and keyword fields alike, the CIDR filter selects exactly the documents with an address of the subnet in some field, unless it is a range that is wrong on texts and some field holds text |
| Opensearch.CidrFilterIsRightExactlyWhen | backend/app/utils/cidr.py:69-84 | it does so for all documents if and only if it has the wildcard form or its range is right on texts |
| Opensearch.NeighbourIsSelected | backend/app/integrations/opensearch/mappings.py:225-235 | on a keyword field the filter of 10.0.0.0/22 selects 10.0.20.5 |
| Opensearch.IpFilterMeaning | backend/app/integrations/opensearch/query.py:14-23 | the address filter selects exactly the documents with a field in the subnet, or with the address, as such or as its text, under the condition of the CIDR filter |
| Opensearch.BuildIpLogsQuery | backend/app/integrations/opensearch/query.py:26-140 | under that condition on each network given, the query selects a document if and only if a timestamp lies between the start and the end asked for, now if there is no end, or without a start between a window ago and now, and it satisfies all directional parameters or, without any, holds the address in some source or destination field |
| Sse.Subscribe | frontend/src/api.ts:660-684 | whatever the chunks, the events delivered are those of their concatenation, and the buffer left holds no complete frame |
| Sse.Drain | frontend/src/api.ts:665-682 | the inner loop ends and delivers exactly the complete frames of the buffer |
| Sse.ParseFrame | frontend/src/api.ts:668-680 | comments and frames without data deliver nothing; otherwise the last id and all data lines, trimmed and joined |
| Sse.CutAnywhere | frontend/src/api.ts:664-681 | cutting the text anywhere, even between two newlines, gives the same frames and the same rest |
| Sse.BoundaryIsFirst | frontend/src/api.ts:665 | the boundary searched for is the first place where two newlines meet |
| SseFrames.SilentFrames | frontend/src/api.ts:668-675 | a comment, and a frame without a data line, is no event |
| SseFrames.LinesArriveTogether | frontend/src/api.ts:671-675 | a payload of several lines, each sent as a data line, arrives as it was, if no line begins or ends with a space |
| SseFrames.TrimTakesSpaces | frontend/src/api.ts:672-673 | trimming takes the spaces off both ends and nothing else |
| Sse.Events.Stream | backend/app/api/routes/monitoring.py:294-317 | the text written for any polls is that of the specified updates and heartbeats, and the client count is given back |
| Sse.HeartbeatsKeepTime | backend/app/api/routes/monitoring.py:302-315 | a poll that sends nothing finds less than fifteen seconds since the last message of either kind, and one that sends a heartbeat at least as much |
| Sse.StreamReadsBack | backend/app/api/routes/monitoring.py:310 | reading what the stream writes gives exactly its updates, for newline-free trimmed ids and payloads; heartbeats vanish and nothing is left over |
| Sse.ReceivedIsAnnounced | backend/app/api/routes/monitoring.py:300-315 | end to end, a subscriber receives one event for each poll whose id is not the one announced last, whatever the clock does |
| Sse.ReceivedNeverRepeats | backend/app/api/routes/monitoring.py:301-302 | consecutive ids differ, the first differs from Last-Event-ID, and the last is that of the latest collection |
| Sse.ReconnectionIsSeamless | backend/app/api/routes/monitoring.py:291-311 | reconnecting with the last id received gives what one unbroken connection would have given |
| Sse.BrokenConnectionCatchesUp | frontend/src/api.ts:649-684 | a connection broken anywhere delivered a beginning of what was announced, and after reconnection the client ends at the latest id |
| FmcPacer.RunKeepsInv | backend/app/integrations/fmc/client.py:267-294 | whatever the clients do, the shared state is what the trace of requests and 429 answers says |
| FmcPacer.RequestsArePaced | backend/app/integrations/fmc/client.py:267-294 | a request starts only after it took the lock and nothing but time passed since, once the interval of its own setting is over since every earlier finish, and the retry time of every 429 answer is over; between two starts a request finishes |
| FmcPacer.StartsExactlyWhen | backend/app/integrations/fmc/client.py:273-277 | a sleeping request can start exactly when that is so: it never waits longer either |
| FmcPacer.RateIsBounded | backend/app/integrations/fmc/client.py:272-282 | if every client is configured with at least an interval, any window of length T holds at most floor(T / interval) + 1 request starts, however many clients share the state |
| FmcPaginator.GetAll | backend/app/integrations/fmc/client.py:443-483 | against any server the loop ends within 10,000 pages with the outcome that the judgements of its pages call for |
| FmcPaginator.CallsEndForAReason | backend/app/integrations/fmc/client.py:443-483 | whatever the server does, a returned list is that of the pages up to the first that is empty, not full or reaches the total, none of them repeating the ids of another, and a failure is a failed request, an answer without a list, a repeated page or 10,000 pages |
| FmcPaginator.RecordsAreTheObjects | backend/app/integrations/fmc/client.py:466 | what is kept of the pages are their objects, in order |
| FmcPaginator.HonestServerIsReadExactly | backend/app/integrations/fmc/client.py:443-483 | against a server paging through distinct records the call returns exactly those in order if they number fewer than 10,000 times the limit, or just as many with counts, and otherwise fails at the safety limit |
| Alerts.AlertStore.PersistAlerts | backend/app/monitoring/repository.py:304-397 | each alert's row and observations change as the dashboard's sightings of it call for: observed when listed, resolved when a complete dashboard of its domain does not list it, else untouched |
| Alerts.CollectionPerAlert | backend/app/monitoring/repository.py:319-397 | the two passes over all alerts have on each the effect stated for it alone, in whatever order rows are resolved |
| AlertEffects.ListedAlertsAreObserved | backend/app/monitoring/repository.py:304-365 | an alert some device lists gets a row of the domain that follows the lifecycle rule and holds what a listing says, seen now and not resolved, and the same is logged |
| AlertEffects.MissingAlertsAreResolved | backend/app/monitoring/repository.py:366-397 | an alert of the domain that no device lists is resolved now and logged so, if there are devices and each of them reported its alerts |
| AlertEffects.OtherAlertsAreLeftAlone | backend/app/monitoring/repository.py:304-397 | in every other case row and log stay as they are |
| AlertEffects.LifecycleByText | backend/app/monitoring/alerts.py:15-38 | the next state for every stored text, known or not, active or not |
| AlertRuns.RowsFit | backend/app/monitoring/alerts.py:15-38 | in every run an alert is FLAPPING if and only if it is active with at least the threshold of reopenings, and has a resolution time if and only if it is RESOLVED |
| AlertRuns.RowsFitExactlyFromOne | backend/app/monitoring/alerts.py:32-33 | that holds of all runs if and only if the threshold is at least one |
| AlertRuns.FlappingIsForGood | backend/app/monitoring/alerts.py:36-37 | an alert that flapped is only ever FLAPPING or RESOLVED while no other domain lists its id |
| AlertRuns.FlappingLastsExactlyWhen | backend/app/monitoring/repository.py:313-316 | it stays so through a run if and only if no other domain lists it there |
| AlertRuns.OtherDomainRestarts | backend/app/monitoring/repository.py:313-316 | a dashboard of another domain that lists the id starts the row anew: NEW, not reopened, seen once |
| AlertRuns.IncompleteCollectionsResolveNothing | backend/app/monitoring/repository.py:367-373 | any number of dashboards with a device that did not report its alerts, or without devices, resolve nothing |
| AlertRuns.RowsRecordTheRun | backend/app/monitoring/repository.py:316-397 | while one domain lists the alert, whatever else others report, the reopen count is how often the observations leave RESOLVED, the repeat count how often the alert was listed, and the two times its first and last listing |
| AlertRuns.RowsRecordExactlyWhen | backend/app/monitoring/repository.py:313-397 | the row tells its run so if and only if no two domains list the alert |
| ScopeMerge.MergeScope | backend/app/integrations/fmc/service.py:422-496 | the merge as a function of cache, component and scope, with its dictionaries filled entry by entry |
| ScopeMerge.MergePerDevice | backend/app/integrations/fmc/service.py:430-479 | the merge acts on every device separately and leaves each identified device once |
| ScopeMerge.MergeNeverDrops | backend/app/integrations/fmc/service.py:430-466 | the ids after a merge are exactly those cached and those collected |
| ScopeMerge.MergeIsConsistent | backend/app/integrations/fmc/service.py:483-495 | ids are unique and the totals are a recount, whatever either side held |
| ScopeMergeFields.DashboardFields | backend/app/integrations/fmc/service.py:424-482 | run id and time come from the collection, the domain too unless it names none, the pairs from the high-availability scope and the analysis from the policy scope alone |
| ScopeMergeFields.FullCollectionsReplace | backend/app/integrations/fmc/service.py:422-424 | a full collection, and the first one, replace the cache |
| ScopeMergeFields.TotalsCount | backend/app/integrations/fmc/service.py:483-495 | the totals count the devices, the connected ones, the alerts, and the red and the yellow ones in any case of letters |
| ScopeMergeFields.ScopesWriteWhatTheyOwn | backend/app/integrations/fmc/service.py:440-479 | a device listed once gets what the scope owns from the collection and keeps all else; the last pair it is a member of is attached by the high-availability scope alone |
| ScopeMergeFields.UnlistedDevicesStay | backend/app/integrations/fmc/service.py:430-479 | a device the collection does not list keeps its entry, but for such a pair |
| ScopeMergeRuns.FieldsComeFromLastOwners | backend/app/integrations/fmc/service.py:440-466 | after any writes each field of a device is that of the last collection whose scope owns it, or else what it was; capabilities are the union in order |
| ScopeMergeRuns.CacheFieldsComeFromLastOwners | backend/app/integrations/fmc/service.py:422-479 | the same of the cache after any run of partial collections |
| ScopeMergeRuns.HealthAndAlertsCommute | backend/app/integrations/fmc/service.py:444-465 | health and alerts collections may be merged in either order, per device and field, when they report different capabilities |
| GraphLayout.InterfaceGrid | frontend/src/lib/graphModel.ts:33-37 | a grid has the columns proposed, but two at least and seven at most, room for all interfaces, and no empty row, whatever the square root gives |
| GraphLayout.BuildGraph | frontend/src/lib/graphModel.ts:45-185 | nodes and links are those of the placement, with width and height of the first pass; without a region nothing is drawn |
| GraphContents.EverythingIsDrawn | frontend/src/lib/graphModel.ts:119-181 | every site is drawn if its level is on, every device of an opened site, and every interface of an opened device, each on its line and linked to what it belongs to |
| GraphContents.NothingElseIsDrawn | frontend/src/lib/graphModel.ts:119-181 | every node is the region, a site, a device of an opened site or an interface of an opened device |
| GraphGeometry.PassesAgree | frontend/src/lib/graphModel.ts:105-112 | the second pass uses exactly the width the first reserves, and the site stands over the middle of its devices |
| GraphGeometry.NothingOverlaps | frontend/src/lib/graphModel.ts:140-181 | sites are at least 378 apart and devices 286; interfaces of different devices are at least 276 apart and those of one device in different cells |
| GraphGeometry.EverythingIsInside | frontend/src/lib/graphModel.ts:116-117 | every node lies within the width and height |
| GraphSpacing.GridReadsLeftToRight | frontend/src/lib/graphModel.ts:155-176 | a grid begins on its line, centred below its device, and goes on by 132 to the right and, after each full row, by 84 down |
| GraphSpacing.DevicesAreSpaced | frontend/src/lib/graphModel.ts:138-180 | the first device of a site stands 112 and half its block from the lane's left end, each next one at exactly the two half blocks and 96 from the one before |
| GraphSpacing.SitesAreSpaced | frontend/src/lib/graphModel.ts:105-116 | the first site stands 120 and half its lane from the left, each next one at exactly the two half lanes and 128 from the one before, and the width ends 248 after the last lane but is at least 1440 |
| GraphSpacing.FrameIsExact | frontend/src/lib/graphModel.ts:117-120 | the region stands in the middle, and the height ends exactly 150 below the lowest interface, or is 850 without any |
| GraphTree.LinksFormATree | frontend/src/lib/graphModel.ts:119-178 | every node but the region has exactly one link, from a node drawn before it, and distinct sites, devices and interfaces get distinct ids |
| AuditDiff.ComputeDiffs | backend/app/integrations/fmc_audit/service.py:500-519 | the differences are correct, in strictly ascending order of their fields, and name every field that reads differently |
| AuditDiff.DiffIsUnique | backend/app/integrations/fmc_audit/service.py:507-518 | no other list is so |
| AuditDiff.DiffsLeadFromBeforeToAfter | backend/app/integrations/fmc_audit/service.py:500-519 | applied to the first snapshot they read as the second, undone on the second as the first, a missing field reading as null |
| AuditDiff.SnapshotsFromValues | backend/app/integrations/fmc_audit/collector.py:332-354 | the snapshots hold what the lists give, later entries over earlier ones, and an empty one is absent |
| AuditDiff.SnapshotsHoldLastEntries | backend/app/integrations/fmc_audit/collector.py:332-354 | a snapshot holds of a field the last addition or deletion of it, with the stand-in value where its own counts as false, else the last update, else nothing |
| AuditDiff.ListsAreReproduced | backend/app/integrations/fmc_audit/collector.py:332-354 | for separate fields, true values and real changes the differences are exactly the added, deleted and updated entries |
| AuditDiff.AdditionReported | backend/app/integrations/fmc_audit/collector.py:344-348 | an addition is reported if and only if its value counts as true or a new value stands in for it |
| AuditDiff.DeletionReported | backend/app/integrations/fmc_audit/collector.py:349-353 | a deletion is reported if and only if its value counts as true or an old value stands in for it |
| AuditDiff.UpdateReported | backend/app/integrations/fmc_audit/collector.py:337-343 | an update is reported if and only if it changes the value |
| AuditDiff.ComputeChangedFields | backend/app/integrations/fmc_audit/collector.py:370-379 | the changed fields are the fields of the differences, each once |
| RateLimit.BucketDecidesLimit | backend/app/security/rate_limit.py:53-69 | requests that share a counter share its limit, which is at least one |
| RateLimit.LimitsAndCounters | backend/app/security/rate_limit.py:53-69 | exactly the paths that end in /export, /refresh or /auth/token have the sensitive limit and a counter of their own each, all others share the general ones, and no limit is below one |
| RateLimit.Limiter.Dispatch | backend/app/security/rate_limit.py:30-51 | the counter after a request, and admission, with the limiter off and with a Redis fault before or after the increment |
| RateLimit.CountersExpire | backend/app/security/rate_limit.py:38-40 | a counter keeps its count for ninety seconds after its last hit and is gone from then on |
| RateLimit.FaultsAdmit | backend/app/security/rate_limit.py:31-51 | with the limiter off or a Redis fault at any moment the request is admitted |
| RateLimit.CountersCountHits | backend/app/security/rate_limit.py:38-40 | the expiry never fires within a window: a counter holds the number of its hits |
| RateLimit.AdmittedPerWindow | backend/app/security/rate_limit.py:41-46 | each identity and bucket is admitted min(hits, limit) times per minute of the clock |
| RateLimit.AdmittedPerMinute | backend/app/security/rate_limit.py:34-46 | and at most twice the limit in any sixty seconds |
| Migrations.MigrationFiles | backend/apply_migrations.py:22-34 | the files whose names have a version, under their names and checksums, in strictly ascending order, all of them and no others, or an error exactly when two have one version |
| MigrationNames.VersionsAreRead | backend/apply_migrations.py:12 | a name has a version exactly when it is V, digits, two underscores, a nonempty title without line breaks and .sql, and the version is the value of the digits |
| MigrationRunner.RunKeepsInv | backend/apply_migrations.py:62-94 | in every interleaving, crashes included, the lock stays with its holder and every run's view of the table right |
| MigrationRunner.RunsExcludeEachOther | backend/apply_migrations.py:62-94 | at most one run is between taking and giving back the lock, and the lock is never left behind |
| MigrationRunner.CommitsFindTheirVersionFree | backend/apply_migrations.py:81-91 | in every reachable state the version a run is about to insert is not in the table, so its primary key never refuses an insert |
| MigrationRunner.EachMigrationCommitsOnce | backend/apply_migrations.py:81-91 | no migration is committed twice, nor when it was applied before, and nothing else enters the table; the lock alone sees to it |
| MigrationRunner.AppliedStaysAPrefix | backend/apply_migrations.py:69-91 | started on a prefix of the files the table stays one, and the commits are exactly the next files in order |
| MigrationRunner.SuccessMeansAgreement | backend/apply_migrations.py:72-80 | a run that succeeds leaves every file in the table under its own name and checksum |
| MigrationRunner.AfterSuccessNothingRuns | backend/apply_migrations.py:66-80 | after one success no step of any run sends or commits a migration's SQL |
| MigrationRunner.Database.ApplyMigrations | backend/apply_migrations.py:64-91 | an undisturbed run ends at the first file that was applied differently or whose SQL fails, keeping what it applied before, or completes |

## Left out

- Vpn.StoredStateReadsBack: stripping and upper-casing of Unicode text is taken as done before a status is normalised.
- Vpn.CalculateServiceMetrics: availability percentage, MTBF and MTTR are quotients of figures the model keeps, the last two of the completed UP and DOWN lengths, and their rounding is left out.
- VpnTimeline.VpnTimeline: the page of transitions shown beside the analytics (offset and limit) and the descriptive fields of the answer are not modelled.
- VpnEndToEnd.TimelineMatchesObservations: compares the figures of the analytics, not the page of transitions shown beside them; observations of one tunnel are at increasing times.
- VpnRepository.Repository.PersistVpnSnapshot: domain, name, peer, device, policy and raw JSON columns, the collector run row and the raw responses are not modelled.
- VpnRepository.Repository.RunRetention: the deletes from the other four tables, each by a cutoff of its own, are not modelled.
- VpnRuns.HistoryMeaning: clearing all monitoring data starts a new history and is not a step of one.
- FmcSection.RefetchedDashboardIsFresh: speaks of the dashboard cache only; lock-free readers also write the VPN cache, which is not modelled. A job without a configured database takes no lock; the model assumes one. An entry left behind that expires before anything reads it does no harm, and the exception does not ask for that.
- FmcSection.SectionIsExclusive: loss of the lock's own database session while its job runs on is not a step; the model takes the lock to last until the job leaves the section or dies.
- FmcSection.StepKeepsInv: the lock that serialises cache writes within one process is not modelled, nor the check in front of a manual reset, which an await separates from the assignment it guards; both only add interleavings here.
- Opensearch.CidrFilterMeansMembership: a field of type ip is taken to answer a wildcard by the dotted text of its address; text that is no address, IPv4 in another notation and analysed text are left out.
- Opensearch.IpFilterMeaning: networks are given as address and prefix length, IPv4 only; parsing network text, and IPv6, are left out.
- Opensearch.BuildIpLogsQuery: the size, sort and source fields of the query body are left out, a missing or empty parameter is None, an empty field list is taken to select nothing, and timestamp fields are taken to hold times.
- Sse.Subscribe: payloads stay JSON text, so a payload that does not parse is not modelled, nor is the decoding of bytes to text; an abort is the end of the chunks.
- Sse.Events.Stream: other streams opening and closing in between are not interleaved.
- FmcPacer.RequestsArePaced: the monotonic clock is taken to read at least zero.
- FmcPacer.RateIsBounded: clocks are exact reals and a sleep lasts at least as long as asked for; each base address and event loop has its own state, and the model is of one.
- FmcPaginator.GetAll: the request itself, with its retries and its re-authentication, is one answer of the server; ids are their text.
- Alerts.AlertStore.PersistAlerts: module, source status, description and raw JSON columns are carried as one opaque value or left out.
- ScopeMerge.MergeScope: works on values, so that a pair attached in place to an entry shared with the old cache is not visible there; scopes without a branch of their own behave as the policy scope does for devices.
- GraphLayout.BuildGraph: real arithmetic in place of floating point, and any column proposal in place of the square root; labels, lifecycles and metadata of nodes are left out.
- AuditDiff.ComputeDiffs: values are compared by an opaque equality, and field names are texts.
- RateLimit.AdmittedPerWindow: without Redis faults, and for increments that run within thirty seconds of the clock reading that chose the window; hashing of identities is opaque.
- Migrations.MigrationFiles: digits are ASCII, and a name may not end in a line break after its suffix.
- MigrationRunner.RunKeepsInv: a migration's SQL is one transaction, and PostgreSQL gives a session lock back when its connection ends.
- Field-by-field mapping of FMC, OpenSearch and NetBox answers, reports, pages, roles and tokens, secret masking, simple counters and risk scores: they would only add easy members.
