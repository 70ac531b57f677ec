# All Monitor: verified models of the server's concurrent and stateful cores

All Monitor is a self-hosted monitoring server (Go) with a web client (TypeScript). This project models the parts of
it whose correctness is not visible in one function body, and proves what they keep over whole calls, whole runs and
whole histories.

* **Subscription fetch.** `HostMemory` is the per-host protocol memory, `FetchLoop` the specification of one call
  (user agents, attempts, protocols, a hedged pair, one deadline), `Fetcher` the call as the service runs it, with a
  clock, a marked memory and loops. `FetchBounds`, `FetchHistory` and `FetchOutcome` say how long a call takes, how
  many requests it sends, what it returns and what the memory has learnt from it, `FetchTrace` exactly which requests
  an attempt sends and what it makes of them. The network is an oracle that
  answers the n-th request in any way at any time, and other calls may mark the shared memory at any time; Go's 64-bit
  wrap-around is written out (`Int64`).
* **Singleflight refresh.** `Singleflight`: any number of callers, one mutex, one channel per call, every
  interleaving; `RefreshAnswers` follows each caller from its question to its answer.
* **Latency jobs.** `JobChannels` is the job object with its bounded subscriber channels, `LatencyJob` the runner, its
  workers and any subscribers in every interleaving, including the send on a channel that a subscriber has closed
  meanwhile. `LatencyEvents` says what the subscribers are told and what they lose, `LatencyCounts` what the figures of
  a finished job count. `LatencyPool` is the synchronous variant that feeds all nodes before it reads a result.
* **Node tables.** `UriList` parses a list of URIs, `NodeTable` is the rebuild that carries measurements across by
  UID, `NodeGroup` the configured groups with their histories of creations, edits, removals, deletions, refreshes and
  probes, in transactions that may fail at every operation, `NodeStore` the same as an object with rollback.
  `Availability` takes the single writes of probes, of a batch's collector and of rebuilds and deletions in every
  interleaving and says what they make of the count of available nodes, `Staleness` which of them part a node from its
  latest check.
* **Probing.** `Median`, `RealityKey`, `SingBoxFetch` and `Probe`: medians, the respelled key, one fetch with its one
  retry, the weighted score, the mixed result. `FetchFailures` and `ProbeMeans` read failures, samples, baselines and
  results off what processes and dials do.
* **Aggregation.** `Series` (five-minute buckets) and `Tracking` (ingestion, summary, hourly series).
* **Scheduler, shares, versions.** `Scheduler` with `PassOutcome`, what a pass checks and writes; `Share` and `Version`.

`Text` holds the string operations that several modules use.

Where the source does less than one might expect, the model follows the source, and the property is stated with its
exact condition and a concrete counterexample:

* The time bound of a fetch holds for all networks exactly when the configured timeout in nanoseconds is a positive
  `time.Duration`. A timeout of 9 223 372 036 855 ms wraps around to a negative one, for which `http.Client` and the
  wait for the response headers set no limit; over plain http nothing else does once the connection stands.
* A latency job may crash: an update copies its subscribers and sends to them later, and a subscriber that quits in
  between has closed its channel. Quitting is harmless exactly when nothing is owed to the subscriber.
* Deleting a node looks only at the first node of each configured entry. After a deletion a row with the UID remains
  exactly when another entry holds the node behind its first one; with entries of one line each, none does.
* The rows of a node group are the nodes of its list, but a refresh rebuilds the table without looking at the target
  again, which may have become a group while the subscription was being fetched. A group is in agreement with its list
  exactly when no refresh has committed on it since its last sync, or the last one fetched just the list's nodes.
* A deletion reads the list before its transaction and writes back what it kept. Of two overlapping deletions the first
  can be lost: its node is back exactly when an entry that the second one read and kept holds it.
* `available_total` and the number of listed nodes whose latest check succeeded differ by the rows last written from an
  earlier success, less those that a later success did not reach. The first happens when a batch's collector writes an
  old latency over a later failure, the second when a probe's row was rebuilt away or a node left the list and came
  back. Without overlaps and failed writes only the last remains. A node goes with its latest check at all times
  exactly when four kinds of step never happen to it: a check whose row is no longer listed, a failed write of the
  latest result, a late write of an earlier one, and a rebuild that lists it without its latest check.
* A failed fetch is taken for an unsupported node, whatever the process did, exactly when preparing its temporary file
  failed with an error whose text says "unsupported" and none of the phrases looked for before.
* The last bucket of the availability series counts only the checks at the very instant at which it begins, because
  both ends of the query are truncated.
* A scheduled row of a subscription can be as old as the row that made the check due: the scheduler may join a
  refresh that has its time stamp already. And the interval of a target is kept exactly up to 9 223 372 036 seconds.
* A key in the URL alphabet that lacks only its padding has no alternate spelling, while a padded standard key has.
* A later penalty shortens a running one exactly when its own ends earlier: within 22 minutes after a mismatch.
* The version comparison is the precedence of Semantic Versioning exactly when `localeCompare` has the sign of ASCII
  order on identifiers, and an order of all tags exactly when no tag that does not parse lies, as text, between two
  releases against their order.

## Model

| member | source | states |
|---|---|---|
| HostMemory.Plan | server/internal/service/target_service.go:2104-2133 | A fixed mode plans that protocol alone; an automatic plan is always one of the two orders of h1 and h2 |
| HostMemory.Store.Succeed | server/internal/service/target_service.go:2148-2170 | Marking a success in place changes the memory by exactly that mark, on the normalised name of the host |
| HostMemory.Store.Fail | server/internal/service/target_service.go:2172-2200 | Marking a failure in place changes the memory by exactly that mark, on the normalised name: only errors that count, 30 minutes for a mismatch, 8 otherwise, from the time of the failure |
| HostMemory.NormalHostsAreKept | server/internal/service/target_service.go:2148-2149 | Normalising a normalised name changes nothing, so the marks of a call reach the host that it planned for |
| HostMemory.PlanRefinesHistory | server/internal/service/target_service.go:2104-2200 | For every log of marks and every time, the automatic plan is the one computed from the log: the last success first, unless exactly one protocol is penalised by its latest counted mark |
| HostMemory.MarksAreLocal | server/internal/service/target_service.go:2148-2200 | Marks on other hosts, however many, never change a host's plan in any mode |
| HostMemory.LaterPenaltyShortensIff | server/internal/service/target_service.go:2190-2198 | A second counted failure shortens the running penalty exactly when its own ends earlier; for a later one, exactly when it is no mismatch and comes within 22 minutes of one |
| HostMemory.PenaltiesLast | server/internal/service/target_service.go:2172-2200 | A counted failure keeps its protocol avoided for 30 minutes if it is a mismatch, else for 8; any other failure changes nothing |
| HostMemory.ModesByName | server/internal/service/target_service.go:2092-2102 | Which configured texts, in any case and with blanks around them, fix the protocol; all others are automatic |
| Fetcher.SubscriptionFetcher.TryProtocols | server/internal/service/target_service.go:1806-1876 | The loop over the planned protocols leaves clock, memory, requests, response and error as the specification says |
| Fetcher.SubscriptionFetcher.TryBoth | server/internal/service/target_service.go:1981-2015 | The hedged pair goes on with the first answer received, after both have ended |
| Fetcher.SubscriptionFetcher.FetchSubscriptionContent | server/internal/service/target_service.go:1755-1942 | The imperative call, which reads mode, user agents and host from the settings, computes for every network and all marks of other calls exactly the specified result and final state, within the time bound and with at most 48 requests |
| FetchTrace.AttemptIsItsRequests | server/internal/service/target_service.go:1787-1886 | Which requests an attempt sends, read off the network alone: the first planned one with its time; the second exactly after an error that calls for it; and, exactly after a second one that timed out without a mismatch in a try of at least 3 s with more than 1.2 s left, h2 and h1 at once, each for half the try, at least 1.5 s and at most what is left. There is an answer exactly when the last planned request, or one of the pair, has one |
| FetchTrace.AttemptVerdictIs | server/internal/service/target_service.go:1787-1942 | An attempt succeeds exactly when that answer is read in full and below 400, with its response and duration; otherwise its error is what is wrong with that answer or, without one, the more telling of what broke its requests |
| FetchTrace.PairSavesAttempt | server/internal/service/target_service.go:1863-1886 | An attempt whose planned requests both hang, saved by the pair after 17.5 s |
| FetchTrace.FetchSucceedsIff | server/internal/service/target_service.go:1786-1942 | A call returns a response exactly when one of its own requests, other than the losers of a pair, got a fully read answer below 400; a failed one says how long it took |
| FetchTrace.LoopsAreOne | server/internal/service/target_service.go:1786-1942 | The loops over user agents and attempts are one loop over all attempts, the a-th with agent a / attempts, with pauses of 0.7 s, 1.4 s and so on between those of one agent |
| FetchTrace.SettingsMean | server/internal/service/target_service.go:1757-1785 | Without wrap-around the timeout is 20 s by default, the budget all tries together but at most 45 s, the attempts one more than the retries but at most six |
| FetchTrace.AgentsMean | server/internal/service/target_service.go:1789-1792 | The configured user agent comes first, the default one is among the agents, and never twice |
| FetchBounds.FetchTimeBound | server/internal/service/target_service.go:1773-1942 | With a positive try timeout, every call ends within its budget plus 3000 ms (the worst overrun of one attempt, none with a fixed protocol) plus 3500 ms (one pause), whatever the network does |
| FetchOutcome.TimeBoundIff | server/internal/service/target_service.go:1757-1783 | The bound holds for all networks exactly when the configured timeout is a positive duration after wrap-around |
| FetchOutcome.TimeoutsThatFit | server/internal/service/target_service.go:1757-1783 | Every timeout up to 9 223 372 036 854 ms is one, the next one is not |
| FetchOutcome.TimeBoundIsReached | server/internal/service/target_service.go:1773-1942 | The bound is sharp: some network makes a call with a timeout of 20 s and five retries take exactly 51 500 ms |
| FetchOutcome.FetchEffort | server/internal/service/target_service.go:1786-1942 | At most four requests an attempt (one with a fixed protocol) and 48 in all; a call gives up only past its deadline or after every attempt of every agent |
| FetchOutcome.FetchReturns | server/internal/service/target_service.go:1876-1942 | A call returns either a fully read response below 400 to a request that it sent itself, or what was wrong with a request that it sent itself; the loop's fallback errors are unreachable |
| FetchHistory.FetchLearns | server/internal/service/target_service.go:1806-1876 | With any marks of other calls in between, the memory after a call is the one before it updated by all marks in their order, and the call's own among them are one for each planned request and for each winner of a hedged pair, in order |
| Singleflight.EveryRunIsSafe | server/internal/service/target_service.go:1074-1108 | In every interleaving: at most one refresh a target runs, the map has an entry exactly while it is in flight, each channel is closed at most once, each waiter returns the result of the refresh of the call it joined, never an unset one |
| Singleflight.EnteringIsTimely | server/internal/service/target_service.go:1075-1090 | A caller that finds a call joins it before it has published; one that finds none starts a fresh refresh |
| Singleflight.SomeStepIsEnabled | server/internal/service/target_service.go:1074-1108 | No deadlock: until everyone has returned some step is enabled |
| Singleflight.EveryoneReturns | server/internal/service/target_service.go:1074-1108 | Without new callers every run is bounded, and one that cannot go on has let every caller return and emptied the map |
| RefreshAnswers.CallersGetWhatWasFetched | server/internal/service/target_service.go:1074-1108 | In every run, whoever asks for a target and waits gets what a refresh of that target returned in the run; whoever does not wait gets nothing |
| RefreshAnswers.WaitersAreAnswered | server/internal/service/target_service.go:1074-1108 | Once nobody else arrives and the run cannot go on, whoever waits has its answer |
| JobChannels.SubscriptionJob.NewSubscriber | server/internal/service/subscription_latency_job.go:55-61 | A new subscriber gets an open, empty channel of its own |
| JobChannels.SubscriptionJob.Cancel | server/internal/service/subscription_latency_job.go:63-70 | Quitting closes the channel and leaves the map, and does nothing the second time |
| JobChannels.SubscriptionJob.Mutate | server/internal/service/subscription_latency_job.go:83-91 | The locked part of an update changes the status by the mutation and copies status and subscribers |
| JobChannels.SubscriptionJob.Offer | server/internal/service/subscription_latency_job.go:92-99 | A send to an open channel is offered, and kept unless 32 events wait already |
| JobChannels.SubscriptionJob.CloseSubscribers | server/internal/service/subscription_latency_job.go:102-109 | Closing all closes each subscribed channel once and empties the map |
| JobChannels.UnsubscribeKeeps | server/internal/service/subscription_latency_job.go:63-70 | Quitting, even twice, keeps: a channel is closed at most once and exactly when it has left the map, no buffer exceeds 32, what is received is a subsequence of what was offered |
| LatencyJob.EveryRunIsSafe | server/internal/service/subscription_latency_job.go:153-221 | In every interleaving: done = success + failed <= total, no node is with two workers, done status only at done = total; a channel is closed at most once and exactly when it has left the map, holds at most 32 events, and its subscriber receives a subsequence of what was offered |
| LatencyJob.NodesStayWithTheirWorker | server/internal/service/subscription_latency_job.go:179-211 | Over every run a node, once taken, stays with that worker, and is never probed or counted anew |
| LatencyJob.StatusIsMonotone | server/internal/service/subscription_latency_job.go:83-91 | The counters never decrease and a done status never changes |
| LatencyJob.FinishedJobCountsItsRows | server/internal/service/subscription_latency_job.go:186-203 | The counters go by error texts and the check rows by success flags; in a finished job they agree without persistence faults, and each fault is accounted for otherwise |
| LatencyJob.NothingIsSentAfterClosing | server/internal/service/subscription_latency_job.go:213-219 | In every run, polite or not, nothing is sent after the runner has closed all subscribers, so never on a channel that it closed itself |
| LatencyJob.PoliteRunsNeverCrash | server/internal/service/subscription_latency_job.go:83-109 | If no subscriber quits between the copy and the send of an update, no send meets a closed channel |
| LatencyJob.PoliteJobsNeverCrash | server/internal/service/subscription_latency_job.go:111-221 | The same for every job from its start |
| LatencyJob.QuittingCrashesIffOwed | server/internal/service/subscription_latency_job.go:63-99 | After a subscriber quits, some next step crashes exactly when it was owed an event |
| LatencyJob.CrashIsReachable | server/internal/service/subscription_latency_job.go:63-99 | The crash does occur: a run from the start of a job reaches it |
| LatencyJob.SomeStepIsEnabled | server/internal/service/subscription_latency_job.go:179-219 | No deadlock for any number of nodes, any concurrency of at least 1 and any subscribers |
| LatencyJob.JobStepsAreBounded | server/internal/service/subscription_latency_job.go:179-219 | Every step of the job, sends included, lowers a global measure that no step of the outside raises, so with at most n channels the job takes at most that many steps |
| LatencyJob.JobsEnd | server/internal/service/subscription_latency_job.go:153-221 | A whole job takes at most (6 * nodes + workers + 5) * (joins + 1) steps of its own |
| LatencyJob.StuckMeansFinished | server/internal/service/subscription_latency_job.go:179-219 | A job that cannot go on has counted every node and its status is done |
| LatencyEvents.SubscribersAreOfferedAll | server/internal/service/subscription_latency_job.go:83-100 | In every run, what is published while a channel is subscribed is offered to it exactly once, or is still to be sent; when the job is over, all is offered. This holds for every selection of events |
| LatencyEvents.EventsAreTrue | server/internal/service/subscription_latency_job.go:83-100 | Every event offered is the status of the job right after the step that published it: a result that of the count of its node, progress an earlier or the current one, the end the final one, done, with all nodes counted |
| LatencyEvents.ResultsComeOnce | server/internal/service/subscription_latency_job.go:186-203 | No subscriber is offered the result of a node twice |
| LatencyEvents.OnlyFullChannelsLose | server/internal/service/subscription_latency_job.go:92-99 | A subscriber lacks exactly as many events as were sent to it while 32 were waiting, and has all in order exactly when that never happened |
| LatencyEvents.AllChannelsAreClosed | server/internal/service/subscription_latency_job.go:102-109 | When the runner closes the subscribers, every channel there is has been closed exactly once |
| LatencyCounts.FinishedJobCountsItsProbes | server/internal/service/subscription_latency_job.go:179-211 | The successes of a finished job are its probes that succeeded and could be stored, the others its failures; it has written a check row with the success flag for every probe but those whose row could not be created |
| LatencyCounts.WorkersAreConfigured | server/internal/service/subscription_latency_job.go:165-182 | A job has as many workers as configured, at least one, and none without nodes |
| LatencyCounts.ProgressFollowsEveryNode | server/internal/service/subscription_latency_job.go:196-203 | A finished job has published one progress event for each node |
| LatencyPool.DeliveryNeverBlocks | server/internal/service/target_service.go:906-938 | No worker waits for room in the result buffer, although nothing is read before all nodes are fed |
| LatencyPool.OneResultPerNode | server/internal/service/target_service.go:906-942 | The caller reads exactly one result for each node, the one its worker delivered |
| LatencyPool.RunsFinish | server/internal/service/target_service.go:906-942 | Every run is finite, and one that cannot go on has returned and let every worker go |
| LatencyPool.ResultsAreProbed | server/internal/service/target_service.go:906-942 | The result read for a node is the latency that its probe measured in this run, and none if it could not be stored |
| LatencyPool.UpdatedIsStored | server/internal/service/target_service.go:928-942 | The number reported is that of the latencies that could be stored |
| UriList.ParseLines | server/internal/service/target_service.go:2322-2340 | The loop over the lines yields the parsed nodes in order, numbered from 0 |
| UriList.ParseIsNumbered | server/internal/service/target_service.go:2322-2340 | There is one node for each line that parses, in the order of the lines, numbered from 0 and otherwise as parsed |
| UriList.LinesAreTrimmed | server/internal/service/target_service.go:2327-2331 | White space around a line does not matter |
| UriList.ParseOfJoined | server/internal/service/target_service.go:2322-2340 | For any parser of lines that makes nothing of an empty one, parsing the joined list is the renumbered concatenation of the parses of its entries |
| UriList.ParseURIListOfJoined | server/internal/service/target_service.go:2322-2340 | The same for parseURIList with its trimming of lines and any parser of one URI |
| NodeTable.RebuildIsExact | server/internal/service/target_service.go:1166-1243 | The target's new rows are exactly the parsed nodes in order, each with the measurements known for its UID; other targets' rows are untouched |
| NodeTable.KnownIsSomeRow | server/internal/service/target_service.go:1174-1209 | What is carried for a UID is what its last old row says, and nothing if there is none |
| NodeTable.NewNodesAreUnmeasured | server/internal/service/target_service.go:1224-1240 | A node that was not listed before has no latency, no time, no figures and no error |
| NodeTable.RebuildIsIdempotent | server/internal/service/target_service.go:1166-1243 | Rebuilding again from the same list changes row ids only |
| NodeStore.Store.RowsOfRefresh | server/internal/service/target_service.go:1174-1240 | The map loop and the row loop of a refresh, copying field by field, make the specified rows |
| NodeStore.Store.RowsOfSync | server/internal/service/target_service.go:1264-1327 | So do the two loops of a sync, a separate text |
| NodeStore.Store.CarryOversAgree | server/internal/service/target_service.go:1174-1327 | On the same old rows and parsed list both copies make the same rows, the nodes in order with the measurements known for their UIDs |
| NodeStore.Store.TransactionsAgree | server/internal/service/target_service.go:1166-1330 | On equal tables a refresh and a sync of the same list end with equal tables, or both with an error |
| NodeGroup.RefreshIsExact | server/internal/service/target_service.go:1166-1243 | A committed refresh leaves exactly the parsed nodes, an empty list an empty table |
| NodeGroup.RefreshNumbers | server/internal/service/target_service.go:1224-1240 | The rows of a committed refresh from a list of URIs are numbered from 0 in their order |
| NodeGroup.SyncedRowsAreNumbered | server/internal/service/target_service.go:1297-1330 | So are the rows of a group after every committed creation, edit or deletion |
| NodeGroup.RowsStayInOrder | server/internal/service/target_service.go:1224-1240 | Through every history whose refreshes bring lists in order, the rows of every target stay in the order of their numbers |
| NodeGroup.RefreshCommitsIff | server/internal/service/target_service.go:1166-1243 | Exactly when a refresh commits |
| NodeGroup.EditsAreExact | server/internal/service/target_service.go:135-176 | Exactly when a creation, an update or a removal commits, what it makes of its target and rows, and that it leaves all others alone |
| NodeGroup.IdsStayUnique | server/internal/service/target_service.go:1217-1243 | Through every history row ids stay unique, so a probe never writes to the row of another node |
| NodeGroup.DeleteIsExact | server/internal/service/target_service.go:820-877 | After a deletion the rows are the nodes of the kept entries, renumbered, with their measurements; the node's checks are gone, other targets are untouched |
| NodeGroup.DeleteSucceedsIff | server/internal/service/target_service.go:820-877 | Exactly when a deletion succeeds; otherwise nothing has changed |
| NodeGroup.RowRemainsIffHidden | server/internal/service/target_service.go:836-858 | A row with the UID remains exactly when a kept entry holds the node behind its first one |
| NodeGroup.DeleteCommutesWithResync | server/internal/service/target_service.go:820-877 | For entries of one line, deleting gives the rows that removing the UID from the parsed list and renumbering gives; no row with the UID remains, and exactly its checks are gone |
| NodeGroup.TwoLinesKeepTheNode | server/internal/service/target_service.go:836-858 | The restriction to one line is needed |
| NodeGroup.GroupInSyncIff | server/internal/service/target_service.go:1110-1243 | Through any history of creations, edits, also of the kind, removals, deletions whose list was read at any time, refreshes of any target, probes and failed transactions, a node group's rows are the nodes of its configured list exactly when no refresh has committed on it since its last sync, or the last one fetched just these nodes |
| NodeGroup.LateRefresh | server/internal/service/target_service.go:1110-1243 | When a target becomes a group and a refresh commits afterwards, they agree exactly when the refresh fetched the list's nodes |
| NodeGroup.RefreshBreaksSync | server/internal/service/target_service.go:1602-1610 | A run from a subscription to a group whose row is not the node of its list |
| NodeGroup.NodeReturnsIff | server/internal/service/target_service.go:826-872 | After the transaction of a deletion, however long after its reading, a node is in the table exactly when an entry that was read and kept holds it |
| NodeGroup.OverlappingDeletions | server/internal/service/target_service.go:826-872 | Of two deletions that read the same list, the second one's list remains, with the first one's node exactly when an entry in it holds it |
| NodeGroup.DeletionIsLost | server/internal/service/target_service.go:826-872 | A run of two successful deletions after which the first deleted node is listed |
| NodeStore.Store.SyncManualNodeList | server/internal/service/target_service.go:1250-1330 | The sync updates the tables as specified, or returns the specified error to the transaction around it |
| NodeStore.Store.UpdateTarget | server/internal/service/target_service.go:153-172 | An update writes configuration and table as specified, or rolls everything back |
| NodeStore.Store.CreateTarget | server/internal/service/target_service.go:135-145 | A creation writes the target and a group's table as specified, or rolls everything back |
| NodeStore.Store.DeleteTarget | server/internal/service/target_service.go:174-176 | A removal takes the target alone and leaves its rows |
| NodeStore.Store.PlanFromConfig | server/internal/service/target_service.go:820-849 | Before its transaction a deletion reads the list and decides, as specified, what to keep or to refuse |
| NodeStore.Store.DeleteInTransaction | server/internal/service/target_service.go:857-872 | The transaction updates all three tables as specified or none, whatever has become of them since the reading |
| NodeStore.Store.DeleteFromGroup | server/internal/service/target_service.go:820-877 | A deletion with nothing between its two parts updates all three tables as specified or none |
| Availability.AvailableMeansSourceUp | server/internal/service/target_service.go:879-1028 | In every interleaving of the single writes of probes and collectors with rebuilds, deletions and faults, a listed node is available exactly when the last write of its latency came from a successful check of its UID |
| Availability.ProbeFillsItsRow | server/internal/service/target_service.go:979-1027 | A probe whose check and row are written puts its whole result into the row that was read, and into no other |
| Availability.ProbesGoOn | server/internal/service/target_service.go:979-1027 | A probe is of one node from beginning to end and ends after at most three steps of its own; after a failed write nothing more is written for it, and a batch has no latency to collect |
| Availability.CollectorChangesTwo | server/internal/service/target_service.go:928-938 | The collector changes the latency and the time of that row and nothing else |
| Availability.DeletionForgets | server/internal/service/target_service.go:869-872 | Deleting a node takes all its checks away and none of another node |
| Availability.AvailableTotalBalances | server/internal/service/target_service.go:447-465 | In every run available_total is the number of listed nodes whose latest check succeeded, plus the rows last written from an earlier success, less those that a later success did not reach; equal exactly when these are equally many |
| Availability.CalmTotalIff | server/internal/service/target_service.go:944-1028 | Without overlaps and failed writes, the two numbers are equal between probes exactly when no listed node is unmeasured after an earlier success |
| Availability.CollectorRevivesANode | server/internal/service/target_service.go:923-935 | A run in which the collector makes a node available whose latest check failed |
| Availability.ReaddedNodeIsForgotten | server/internal/service/target_service.go:1215-1240 | A run without overlaps and failed writes in which a node leaves, comes back and is no longer counted |
| Availability.CalmTotalsDiffer | server/internal/service/target_service.go:447-465 | Such a run exists, with a probe that succeeds: even without overlaps the count falls short |
| Availability.ProbeOfOldRowIsLost | server/internal/service/target_service.go:1004-1027 | A run in which a rebuild comes between reading a node and storing its probe |
| Staleness.AlwaysCurrentIff | server/internal/service/target_service.go:879-1028 | In every run, a node's rows go with its latest check at all times exactly when no check missed its row, no write of a latest result failed, no earlier result was written late, and no rebuild listed the node without its latest check |
| Staleness.TotalIsLatest | server/internal/service/target_service.go:447-465 | When no listed node was ever parted like that and no result is about to be written, available_total is the number of listed nodes whose latest check succeeded |
| Median.MedianIsMiddle | server/internal/service/target_service.go:3685-3692 | A median is one of the samples, more than half of them are at most it, at least half are at least it |
| RealityKey.AlternateOfStd | server/internal/service/target_service.go:2901-2918 | The alternate of a padded standard key is the unpadded URL key of the same bytes, and there is none exactly when both are spelled alike |
| RealityKey.AlternateOfURL | server/internal/service/target_service.go:2901-2918 | The alternate of a URL key is the padded standard key of the same bytes exactly when it has a - or a _, and there is none otherwise |
| RealityKey.AlternateUndoesItselfIff | server/internal/service/target_service.go:2901-2918 | Taking the alternate twice gives the key back exactly when it has one of + / - _ |
| SingBoxFetch.OnlyTheKeyChanges | server/internal/service/target_service.go:2887-2936 | The alternate outbound differs from the outbound in the public key alone |
| SingBoxFetch.FetchRetriesOnce | server/internal/service/target_service.go:2811-2885 | A fetch starts at most two processes, the second with the alternate outbound after the first complained about the key; a success takes at least 1 ms |
| SingBoxFetch.RetryOnlyRespells | server/internal/service/target_service.go:2850-2854 | The second process gets the first one's outbound but for the key, spelled in the other alphabet |
| SingBoxFetch.AlternateHasAlternateKey | server/internal/service/target_service.go:2887-2936 | The key that the alternate outbound is read with is the respelled key of the outbound |
| FetchFailures.ProcessEnds | server/internal/service/target_service.go:2844-2884 | A process that finishes counts its time rounded to milliseconds, one that runs out of time has the code of a timeout, one that dies the code of its output, or of the system error without any |
| FetchFailures.RetryDecides | server/internal/service/target_service.go:2850-2855 | When the first process complained about a key that can be respelled, the result is that of the second |
| FetchFailures.LastWordsMean | server/internal/service/target_service.go:2856-2878 | From the last words of a process to the stage and reason of the probe, across both classifications |
| FetchFailures.SubstringsRecognise | server/internal/service/target_service.go:3607-3628 | Searching substrings of the lower-cased text recognises the codes again, as that needs |
| SingBoxFetch.FailureIsParseIff | server/internal/service/target_service.go:2811-2885 | A failed fetch has a stage and a reason; its stage is parse exactly when it ended with an error of preparing the temporary file whose text says unsupported and none of the phrases looked for before, never for what a process does |
| SingBoxFetch.FileErrorIsParse | server/internal/service/target_service.go:2811-2838 | A file error whose text is "unsupported" gives the stage parse, with strings.Contains on the lower-cased text as the search |
| Probe.NormalizeMakesShares | server/internal/service/target_service.go:1667-1675 | Every configured pair of weights ends up non-negative with sum 1 |
| Probe.ProbeURLGroup | server/internal/service/target_service.go:2773-2805 | The loop over the fetches yields the median, the sorted samples and the last error |
| Probe.GroupHasMedianIff | server/internal/service/target_service.go:2773-2805 | A group has a median exactly when it has a URL and one of its fetches succeeds; the median is a sample of at least 1 |
| ProbeMeans.SamplesAreFetched | server/internal/service/target_service.go:2773-2805 | The samples of a group are the times of its successful fetches, which take the URLs in turn, each as often as it was taken, in ascending order; the median is the middle one |
| ProbeMeans.ErrorIsLast | server/internal/service/target_service.go:2773-2805 | A group without a sample has the error of its last fetch |
| Probe.ScoreIsBounded | server/internal/service/target_service.go:2725-2770 | The score is at least the smallest sample of both groups, and four times it exceeds four times the largest by at most the spread beyond 40 ms plus 2 |
| Probe.ScoreIsMean | server/internal/service/target_service.go:2736-2770 | The score is the mean of the medians by their shares plus a quarter of what the spread of all samples exceeds 40 ms by, rounded to the nearest whole number, halves up; the jitter is that spread |
| Probe.NormalizeMeans | server/internal/service/target_service.go:1667-1675 | Weights that cannot be used give 0.3 and 0.7, others keep their ratio |
| Probe.ScoreFollowsWeights | server/internal/service/target_service.go:1667-1675 | Usable weights keep their ratio, and a group without weight does not move the score |
| Probe.ProbeBaseline | server/internal/service/target_service.go:2565-2617 | The loop over the dials, with the fallback transport, yields the selected medians and the last error |
| Probe.BaselineIsMeasured | server/internal/service/target_service.go:2565-2633 | The baseline succeeds exactly when a dial does; its latency is a measured one; the TLS latency is positive exactly when a TLS dial succeeded |
| ProbeMeans.BaselineIsDialled | server/internal/service/target_service.go:2565-2633 | The baseline counts each dial that succeeds, as planned or after a failure the other way; its latencies are the medians of their kind, its own that of the TLS dials if TLS is planned and one succeeded, else of all |
| ProbeMeans.BaselineErrorIsLast | server/internal/service/target_service.go:2585-2602 | A baseline without a sample has the error of its last dial |
| ProbeMeans.ProtocolsAreDialled | server/internal/service/target_service.go:3589-3605 | Which protocols are dialled with TLS, which then without it, and which are not dialled |
| Probe.ProbeIsCoherent | server/internal/service/target_service.go:2635-2708 | A probe succeeds exactly when it has no error message; the mixed mode succeeds exactly when the overseas group has a sample, with its median as latency; an unsupported node succeeds exactly with its baseline |
| Probe.EveryProbeIsCoherent | server/internal/service/target_service.go:2565-2805 | Whatever dials and fetches come to, a success has no error message, a positive latency and score and no stage or reason, and a failure the converse |
| ProbeMeans.BaselineModeIff | server/internal/service/target_service.go:2635-2708 | A probe succeeds in the baseline mode exactly when it has no overseas sample, its baseline succeeded, and its failure is one of parsing or blames the proxy while a TLS dial of a protocol that may fall back succeeded |
| ProbeMeans.ProbeShows | server/internal/service/target_service.go:2635-2708 | The figures in the result are those of the baseline, and of the groups unless the baseline stands in for them |
| ProbeMeans.FailureSays | server/internal/service/target_service.go:2684-2708 | How a failed probe explains itself |
| Probe.MixedSuccessIff | server/internal/service/target_service.go:2635-2805 | A probe succeeds in the mixed mode exactly when the node is supported and one of its overseas fetches succeeds |
| Series.Collect | server/internal/service/target_service.go:695-714 | The first loop's map holds the statistics of every bucket in the range and no other |
| Series.SubscriptionSeries | server/internal/service/target_service.go:673-733 | The two loops compute the series, and the two refusals, as specified |
| Series.SeriesConservesChecks | server/internal/service/target_service.go:680-732 | The buckets follow each other without gap from the truncated start to the truncated end, their totals add up to the checks of that range, and every bucket is within its bounds |
| Series.StatMeans | server/internal/service/target_service.go:700-714 | A bucket's available nodes are exactly those with a successful check in it, and its successes fall short of its total exactly when a check in it failed |
| Series.StatCounts | server/internal/service/target_service.go:700-714 | A bucket counts the checks at its times, and the successes among them, each once |
| Series.BucketMeans | server/internal/service/target_service.go:715-732 | A shown bucket has the number of its checks and of the nodes that succeeded in it, and the percentage of successes |
| Series.RefusalsMean | server/internal/service/target_service.go:673-680 | An empty or reversed range is refused first, an unknown target then |
| Series.LastBucketIsOneInstant | server/internal/service/target_service.go:681-688 | The last bucket counts only the checks at the instant at which it begins |
| Tracking.Tracker.Ingest | server/internal/service/target_service.go:1342-1409 | A batch is stored as a whole in order, or nothing is, with the outcome the source gives |
| Tracking.TrackingSeries | server/internal/service/target_service.go:1451-1499 | Whatever the order in which the map is ranged over, the result has a bucket for exactly the hours with an event, strictly increasing, each with its hour's figures |
| Tracking.SeriesAgreesWithSummary | server/internal/service/target_service.go:1411-1499 | In every mode the page views of the series add up to the summary's, and the summary's visitors lie between each bucket's and their sum |
| Tracking.IngestRaisesPV | server/internal/service/target_service.go:1362-1408 | A batch raises its target's page views by the sum of its counts, non-positive ones read as 1, and no other target's |
| Tracking.BatchShowsInSummary | server/internal/service/target_service.go:1362-1449 | A stored batch adds to its target's page views since an instant the counts of its items since then, and to the visitors those of these items, and changes no other target's |
| Tracking.SummaryShows | server/internal/service/target_service.go:1411-1449 | The summary shows page views unless it is for visitors alone, and visitors unless it is for page views alone |
| Tracking.HourHolds | server/internal/service/target_service.go:1461-1470 | An event belongs to the bucket of the hour that it falls into |
| Scheduler.AtMostLimitRun | server/internal/scheduler/scheduler.go:43-57 | In every run the semaphore counts the goroutines past it, at most the limit, 8 by default |
| Scheduler.PassHandlesEachTargetOnce | server/internal/scheduler/scheduler.go:22-104 | Passes never overlap; in a pass each enabled target is decided on exactly once and has at most one row written, in boundedly many steps |
| PassOutcome.PassChecksWhatIsDue | server/internal/scheduler/scheduler.go:60-127 | In a pass, each target was decided on, and exactly one row was written for it if it was due at that moment, has a checker, and its check did not fail; otherwise none |
| Scheduler.PassesDoNotBlock | server/internal/scheduler/scheduler.go:43-104 | In every reachable state a pass that is not over can go on |
| Scheduler.DueIff | server/internal/scheduler/scheduler.go:107-127 | With a readable latest row, a target is due exactly when all its rows are more than the gap older, and never for a subscription or a group without an interval |
| Scheduler.GapIsIntervalIff | server/internal/scheduler/scheduler.go:109-126 | The gap is the interval, 60 s by default, exactly up to 9 223 372 036 s; above that the duration wraps and the gap is shorter |
| Scheduler.IntervalIsKeptIff | server/internal/scheduler/scheduler.go:107-127 | The gate keeps the interval, for all rows at all times, exactly for intervals up to 9 223 372 036 s |
| Scheduler.RowsAreSpaced | server/internal/scheduler/scheduler.go:60-127 | A scheduled row is more than the gap, for intervals up to 9 223 372 036 s the interval, later than every row visible at its decision and every earlier scheduled row of the target, provided the latest row could be read and no refresh stamped too early was waiting to be published |
| Scheduler.SpacingIff | server/internal/service/target_service.go:231-243 | After a decision, every row that may be written at once is spaced exactly when no such refresh waits, or its stamp is spaced itself |
| Scheduler.StaleRowIsReachable | server/internal/service/target_service.go:1074-1108 | A run from the start in which a scheduled row is as old as the row that made the check due |
| Share.Normalize | server/internal/service/share_service.go:25-39 | The loop with the seen map yields the specified list |
| Share.NormalizedMeans | server/internal/service/share_service.go:25-39 | The list has exactly the ids other than 0, without duplicates, in the order of their first occurrences, and normalising again changes nothing |
| Share.FoundAllIff | server/internal/service/share_service.go:80-86 | For distinct ids the count equals their number exactly when every id exists |
| Share.DuplicatesAreRefused | server/internal/service/share_service.go:80-86 | Without distinctness it would refuse ids that exist |
| Share.ShareService.Create | server/internal/service/share_service.go:65-116 | A share is added as specified, or refused with the reason the source gives |
| Share.ShareService.Show | server/internal/service/share_service.go:251-275 | The dashboard's map and loop list the targets as specified |
| Share.DashboardListsTheShare | server/internal/service/share_service.go:65-275 | Creation succeeds exactly for some id, all existing, and an expiry a minute ahead; until then the dashboard lists exactly the still existing targets in share order |
| Share.DashboardMeans | server/internal/service/share_service.go:225-275 | A dashboard is shown exactly for the first share with the token, if it is enabled, not past its expiry and names a target; it lists exactly its targets that exist, in share order, and otherwise says which of these it is |
| Share.RefusalsMean | server/internal/service/share_service.go:65-116 | Why a share is refused: no id, an expiry less than a minute ahead, or an id that does not exist, in this order |
| Version.WalkPrerelease | web/src/lib/version.ts:64-73 | The indexed walk over the identifiers is the comparison by first difference |
| Version.CompareIsPrecedence | web/src/lib/version.ts:34-75 | Where localeCompare has the sign of ASCII order on the identifiers compared, the comparison is the precedence of section 11 of Semantic Versioning 2.0.0, in both directions |
| Version.NumeralsAreRead | web/src/lib/version.ts:34-47 | A decimal numeral is numeric and read as the number it stands for |
| Version.PrecedenceIff | web/src/lib/version.ts:34-75 | It is that precedence on all tags exactly when localeCompare has the sign of ASCII order on all identifiers that are not numeric |
| Version.LocaleIsNotAscii | web/src/lib/version.ts:34-47 | With a localeCompare that puts alpha before Beta the two differ |
| Version.CompareIsOrder | web/src/lib/version.ts:49-75 | On parsed tags the comparison is antisymmetric in sign and transitive |
| Version.LatestIsFirstMaximum | web/src/lib/version.ts:96-100 | The reduction finds a maximum, and of equal ones the first |
| Version.NoticeIsRight | web/src/lib/version.ts:102-123 | When all tags parse, the notice is stable exactly when a newer stable release exists, otherwise prerelease exactly when a newer prerelease does, and names a newest one |
| Version.TransitiveIff | web/src/lib/version.ts:49-52 | The comparison is transitive on all tags exactly when no tag that does not parse lies, as text, between two releases against their order |
| Version.MixedTagsCycle | web/src/lib/version.ts:49-52 | Three concrete tags that form a cycle |

## Left out

- FetchBounds.FetchTimeBound: takes the time the processor spends between network operations, pauses and body reads as zero.
- Fetcher.SubscriptionFetcher.FetchSubscriptionContent: models `http.Client`, TLS, proxies and cookies as one reply an exchange; a positive client timeout is enforced to the nanosecond. The host name is read from the endpoint outside.
- FetchOutcome.TimeBoundIff: takes a timeout that is not positive for none at all, as it is for the response over plain http; the dialer's own 30 s, and the TLS handshake that a negative timeout ends at once, are not modelled.
- HostMemory.Store.Fail: knows an error by which of the searched phrases its text contains, and lower-cases ASCII letters only.
- Singleflight.EveryRunIsSafe: models the map, the mutex and the channels as a state machine over their steps rather than as an object, since its point is the interleaving; a panic inside the refresh, which would leave the entry in the map, is not modelled.
- LatencyJob.FinishedJobCountsItsRows: takes the texts of database errors for not empty.
- LatencyJob.EveryRunIsSafe: models the workers and channels as a state machine for the same reason; starting and finishing times of the status, and the clean-up timer, are not modelled.
- JobChannels.SubscriptionJob.Offer: promises a late or slow subscriber nothing, like the source: events may be dropped, `done` among them, and arrive out of order. `publish` has no caller and is not modelled.
- LatencyPool.OneResultPerNode: does not model the descending node sort, which is no strict order, or the figures computed from the results.
- UriList.ParseOfJoined: takes the parser of one URI as any partial function from trimmed lines to nodes; base64 and YAML subscriptions are not modelled.
- NodeGroup.DeleteIsExact: takes entries as the configuration reader leaves them (trimmed, not empty) and the UID as trimmed; writing the configuration as JSON and reading it back is assumed to keep them.
- NodeGroup.GroupInSyncIff: takes each transaction as one step, as the database isolates them; a refresh may commit on any target at any time with any nodes, which is more than the code can do.
- NodeStore.Store.RowsOfSync: batches of 30 rows are one insertion, in both copies.
- Probe.ScoreIsBounded: computes with reals, so rounding errors of float64 and the values that are no numbers are not modelled.
- Probe.ProbeBaseline: the defaults of timeout and sample count belong to the caller here.
- Probe.ProbeIsCoherent: takes which reasons blame the proxy, and how errors are classified, as functions.
- SingBoxFetch.OnlyTheKeyChanges: cloning the outbound through JSON is taken as the identity.
- RealityKey.AlternateOfStd: is about keys as the two sections of RFC 4648 write them; other strings are respelled by the same function without a meaning of their own.
- Series.SubscriptionSeries: instants are integers in one location; database errors are not modelled.
- Tracking.Tracker.Ingest: the visitor key, the geographic text and the metadata of an event are computed outside; batches of 50 are one insertion in one transaction.
- Tracking.TrackingSeries: a bucket is named by its hour, not by its formatted local time, so a repeated hour at the end of daylight saving time is not modelled. The error reading of a summary without any event is not modelled.
- Scheduler.RowsAreSpaced: a target is what the pass loaded; an edit or a deletion between loading and checking is not modelled, and neither is the removal of old rows.
- Share.ShareService.Create: names, passwords, tokens and their hashes are not modelled; a new token is taken to differ from all others. Updating and deleting a share only changes single fields.
- Version.CompareIsPrecedence: takes the regular expression of a tag and `localeCompare` as parameters; numbers above 2^53 are exact here.
- Version.CompareIsOrder: takes `localeCompare` for a total order up to strings that it calls equal.
- The web pages, HTTP handlers, authentication, notification texts, checkers of single endpoints and the building of outbounds from URIs: long mappings of fields without an invariant across functions.
