# Verified models of ripestream

ripestream streams RIPE Atlas measurement results, stores the rows in ClickHouse, keeps a live topology
graph in FalkorDB, and raises threshold alerts from that graph. This project models the parts of it whose
correctness is decided by its own code and proves what they are for, with Dafny 4.11:

    dafny verify dfyconfig.toml

| Module | What it models |
|---|---|
| `HopGraph`, `RouteTraversal` | the two bounded breadth-first searches behind the route graph of an address, and what their `Complete` flag means |
| `HopParsing`, `Topology`, `TopologyWriter` | from traceroute and ping records to MERGE queries, when batches are flushed, and why flush boundaries do not matter |
| `RecordEffects` | everything one record, once applied, shows in the graph |
| `TraceRoutes` | writer and traversal together: a complete route graph shows every written trace |
| `Janitor` | the batched, capped pruning of stale relationships and orphan nodes |
| `AlertStore`, `AlertEvaluator` | the alert tables and the fire/resolve state machine, with API requests served between any two statements |
| `SelectLoop`, `RowWriter`, `Pipeline` | the ingestion pipeline as a step system: connections, tee, bounded channels, batching writers, shutdown |
| `SqlText` | the schema splitter and the string-literal escaper |
| `IngestionMeter` | the 60-slot ring of per-second counters |
| `Issues` | deduplication, ranking, filtering and cutting of issues |
| `Sequences`, `Wrappers` | small facts about lists, and option and result types |

Databases are maps, sets and sequences. A query without ORDER BY may return its rows in any order, and a LIMIT
may keep any of them; the proofs hold for every choice. The network, the clock and the order in which Go
iterates a map are arbitrary. A string is the sequence of its UTF-8 bytes.

## What turned out to be false

- A prune pass can lose a fresh LOCATED_AT relationship. Three of the upserts overwrite the `last_seen` of an IP
  instead of raising it (`internal/graph/store.go:393-398`), so a late record can make a recently seen source
  address look stale, and pruning that address takes the location with it.
  `Janitor.LateTraceLosesLocation` is such a graph, and `Janitor.PruneLosesLocationExactly` says exactly when
  it happens. No other fresh relationship is ever lost.
- The ring does not always show the true count of the last minute. When the clock steps back a minute, a count is
  lost (`IngestionMeter.ClockStepLosesCount`); `IngestionMeter.RingIsExactUnlessOverwritten` is the exact
  condition: a count is wrong exactly when a different second has taken its slot since.
- Disabling a rule does not resolve its open alerts. `AlertEvaluator.DisabledAlertStaysListed` is such a case, and
  `AlertEvaluator.TickResolvesExactly` says exactly when a tick resolves an open alert: its rule was enabled, its
  query succeeded, and no row of the scope crosses the threshold any more.
- The node query of the route graph repeats a node that belongs to two ASes, and may then exceed the node limit it
  reports. That takes a change of the address-to-AS database between two writes of the address:
  `TraceRoutes.MovedAddressIsListedTwice` is such a graph. `RouteTraversal.NodesAreListedOnceExactly` says when
  every node is listed once: whenever no address within the depth belongs to two ASes, and only then unless the
  node limit cut something off. `RouteTraversal.ListedRowsExactly` gives the length of the list. As long as the
  database does not change, every node is listed once at any moment of any run of writers and janitor
  (`TraceRoutes.RunNodesAreListedOnce`).

Where comments and code disagree, the code is modelled: the comment on `EscStr` speaks of doubled quotes, and the
code puts a backslash before them; the comment in the issues handler ranks by severity first, and the code ranks
alerts first.

## Model

| member | source | states |
|---|---|---|
| RouteTraversal.ClampLimit | internal/graph/query.go:600-609 | a limit in range is kept, a non-positive one becomes the default, a too large one the maximum |
| RouteTraversal.ExpandRound | internal/graph/queries_read.go:995-1032 | one depth: each side's frontier is, without repeats, exactly the ids it has newly seen, each recorded once at this depth; the shared budget is never exceeded; when it runs out at some list position, both sides had every id before that position admitted, and no node new to both is admitted past it |
| RouteTraversal.SideAdvances | internal/graph/queries_read.go:960-981 | a neighbour query cut off at one more than the node limit can never pass for a complete one: if the budget was not exhausted, the side has seen its whole ball and its frontier is the whole next layer |
| RouteTraversal.RoundDepths | internal/graph/queries_read.go:1004-1031 | depths stay exact shortest distances even in the round in which the budget runs out |
| RouteTraversal.RoundOverBudget | internal/graph/queries_read.go:1008-1010 | a refused id is one node too many, so the limit is reported only when more nodes than the limit lie within the depth |
| RouteTraversal.Traverse | internal/graph/queries_read.go:952-1039 | the search is limited exactly when more nodes lie within the depth than the limit allows; then the found nodes are a breadth-first prefix of exactly that size, otherwise exactly everything within the depth |
| RouteTraversal.DepthsAreDistances | internal/graph/queries_read.go:1004-1031 | a recorded depth is the length of a shortest walk to or from the seed |
| RouteTraversal.DescribeIsExact | internal/graph/queries_read.go:1054-1070 | the reported role and depth are true of the shortest walks; a node on both sides is reported at the smaller distance |
| RouteTraversal.OneRowTooMany | internal/graph/queries_read.go:1079-1092 | asking for one edge more than the limit tells exactly whether the limit cut anything off |
| RouteTraversal.IPRouteGraph | internal/graph/queries_read.go:932-1107 | fails exactly for an unknown address; otherwise the found nodes, their rows (one for each AS of a node), depths, roles, newest edges, truncation reason and complete flag are exactly the ones the graph and the limits call for |
| RouteTraversal.ShowsEdgesBetweenNodes | internal/graph/queries_read.go:1079-1099 | the edges shown join listed nodes; an edge between listed nodes is missing only when 10,000 edges at least as new are shown |
| RouteTraversal.ShowsASes | internal/graph/queries_read.go:1045-1078 | every listed AS is one the node belongs to, every AS of a listed node is listed, and a node without an AS is listed without one |
| RouteTraversal.ReasonExactly | internal/graph/queries_read.go:1100-1105 | the reason is the first that applies, in terms of walks: more addresses within the depth than the limit, one exactly at the depth limit, more than 10,000 edges between them |
| RouteTraversal.NodesAreListedOnceExactly | internal/graph/queries_read.go:1045-1078 | every node is listed once if no address within the depth belongs to two ASes, and, when all of those fit the node limit, only then; the list then keeps to the node limit |
| RouteTraversal.ListedRowsExactly | internal/graph/queries_read.go:1045-1078 | when everything within the depth fits the node limit, the list has one entry for every AS of such an address and one for every address without an AS, which decides whether it keeps to the limit |
| RouteTraversal.ExploredIsComponent | internal/graph/queries_read.go:983-1039 | when nothing lies at the depth limit, the explored nodes are all that can reach the seed or be reached from it |
| RouteTraversal.CompleteExactly | internal/graph/queries_read.go:1100-1105 | complete is reported if and only if the whole component fits the node budget, lies strictly within the depth limit and fits the edge limit; it then shows the whole component and all its edges |
| HopGraph.LayerIsDistance | internal/graph/queries_read.go:983-1031 | the nodes first seen in round n are exactly those at shortest distance n |
| HopGraph.FrontierSuffices | internal/graph/queries_read.go:995-1030 | querying the neighbours of the last frontier alone finds everything one edge further out |
| HopGraph.SaturatedBallIsReach | internal/graph/queries_read.go:983-983 | a search whose frontier ran dry has seen everything reachable |
| HopParsing.HopBestReply | internal/graph/parse.go:61-81 | computes the best reply in one pass; no reply gives no address and no time |
| HopParsing.BestReplyIsFirstResponsive | internal/graph/parse.go:61-81 | a hop is reported if and only if some reply is responsive, and under the address of the first one |
| HopParsing.BestReplyAverages | internal/graph/parse.go:71-80 | the reported time lies between any bounds on the times of that address, so times of other addresses never enter |
| HopParsing.BestReplyNext | internal/graph/parse.go:61-81 | what one more reply does: a timeout or another address changes nothing, the first responsive reply is the hop, and one more of the same address enters the mean with the weight of one |
| HopParsing.ExtractResponsiveHops | internal/graph/parse.go:44-58 | the responsive hops, in order, none without an address |
| HopParsing.LossRatio | internal/graph/parse.go:89-97 | between 0 and 1; 0 if and only if nothing was lost, 1 if and only if everything was; times the packets sent it is the number lost |
| Topology.FlushActsOnCore | internal/graph/store.go:386-523 | what the nine queries of a flush do to the measured relationships and to each probe's last_seen |
| Topology.FlushesMerge | internal/graph/store.go:386-523 | flushing two batches leaves the same measurements as flushing them as one, although the queries run category by category |
| Topology.SightingsPermute | internal/graph/store.go:468-510 | a probe's last_seen depends only on which sightings there were, not on the order of queries or flushes |
| Topology.HopsAreCounted | internal/graph/store.go:399-401 | a NEXT_HOP edge shows the last observation of its pair, and its seen_count is the number of observations |
| Topology.TransitsAreCounted | internal/graph/store.go:430-432 | the same for TRANSITS and pairs of ASes |
| Topology.PingsAreLast | internal/graph/store.go:514-522 | a PING edge shows the last measurement of its pair |
| Topology.TargetsAreLast | internal/graph/store.go:494-496 | a TARGETS edge shows the last measurement of its pair |
| Topology.ProbesAreLatest | internal/graph/store.go:468-510 | a probe's last_seen is the latest of its sightings and of what it was, a missing one counting as 0 |
| Topology.OrganizationsAreLatest | internal/graph/store.go:371-432 | an AS shows the last organization given for it that is not blank, and keeps the one it had if there is none |
| Topology.NumbersAreLast | internal/graph/store.go:371-374 | an IP shows the AS number of the last row that names it |
| Topology.ExecuteDominates | internal/graph/store.go:466-523 | every write query keeps each probe's last_seen at or after that of its PING, TARGETS and LOCATED_AT relationships |
| Topology.ExecuteJoins | internal/graph/store.go:371-523 | every write query leaves relationships only between existing nodes |
| Topology.FlushesJoin | internal/graph/store.go:386-523 | wherever the boundaries of a sequence of flushes fall, the measurements are those of one flush of everything |
| Topology.FlushesKeepShape | internal/graph/store.go:386-523 | any sequence of flushes keeps probes ahead of their relationships and leaves none dangling |
| TopologyWriter.Writer.AppendTraceroute | internal/graph/store.go:258-315 | appends exactly the operations of the record, or nothing when its payload is malformed |
| TopologyWriter.Writer.AppendPing | internal/graph/store.go:317-346 | appends exactly the operation of the record, or nothing when the payload is malformed or the destination missing |
| TopologyWriter.Writer.Ingest | internal/graph/store.go:236-256 | a rejected record leaves the batch unchanged and is counted as skipped |
| TopologyWriter.Writer.FlushBatch | internal/graph/store.go:386-527 | issues the queries category by category and stops at the first failure: some number of them took effect, in order; if it succeeds, the new graph is the one the pending batch calls for |
| TopologyWriter.Writer.Flush | internal/graph/store.go:169-192 | the batch is empty afterwards, whether or not the flush failed; only a batch that was written counts as a flush and its operations as upserted |
| TopologyWriter.Writer.Run | internal/graph/store.go:155-234 | for any sequence of received records, ticks and a close or cancellation, and any failures of queries: every operation of every record taken is in exactly one tried batch or still pending, in order, and was written, lost or is pending; nothing is pending after a tick or the end, and never a full batch; the graph is what the queries that took effect make of it; if failed flushes took no effect, it is what the written batches make of it; without failures, graph and pending batch together show what applying each record at once would show; the counters account for written operations, written batches and rejected records; whatever failed, the graph stays well formed and gives each address the AS of the lookup |
| TopologyWriter.WhenTried | internal/graph/store.go:197-232 | no batch is tried early: when one is, everything delivered so far has been handed over with it, and unless that was at a tick or the end it was full |
| TopologyWriter.NothingIsLost | internal/graph/store.go:155-234 | the tried batches and the pending one hold the operations of all records delivered, in order |
| TopologyWriter.BatchesAreOnTime | internal/graph/store.go:216-228 | less than a full batch is ever left pending, and nothing after a tick or the end |
| TopologyWriter.TriedHops | internal/graph/store.go:169-192 | whatever failed, the NEXT_HOP edges and their counts are exactly those of the flushes whose first query took effect |
| TopologyWriter.ApplyEachIsOneFlush | internal/graph/store.go:386-523 | applying records one at a time is flushing all their operations at once, as far as measurements go |
| TopologyWriter.FlushesFollowLookup | internal/graph/store.go:356-384 | flushing looked-up operations joins every address with the one AS the database gives for it |
| TopologyWriter.TraceIsWalk | internal/graph/store.go:270-286 | the NEXT_HOP operations of a traceroute form a walk from the first responsive hop to the last without self-loops |
| TopologyWriter.TracesStayReachable | internal/graph/store.go:258-401 | after any further records, the last hop of a written traceroute is still reachable from its first |
| RecordEffects.PingShows | internal/graph/store.go:317-555 | a ping sets the PING edge of its probe and target to its own values, raises the probe's last_seen, relocates the probe, marks target and source as seen, joins both with their ASes, and changes no other measurement |
| RecordEffects.TraceShows | internal/graph/store.go:258-510 | a traceroute counts every step between different addresses in NEXT_HOP, with the time of the last such step, and every step between different known ASes in TRANSITS; it sets its target, raises the probe's last_seen, relocates the probe, marks its addresses as seen, joins them with their ASes, and changes no other relationship |
| RecordEffects.RejectedExactly | internal/graph/store.go:236-346 | only a traceroute with a readable payload and a ping with one and a target are taken; any other record changes nothing |
| TraceRoutes.WritesKeepShape | internal/graph/store.go:386-523 | applying any records one at a time leaves no relationship dangling and no probe behind its measurements |
| TraceRoutes.CompleteRouteShowsTrace | internal/graph/queries_read.go:932-1107 | in the graph a stopped writer leaves when no flush failed, wherever its flush boundaries fell, a route graph around the first hop of a written traceroute that claims to be complete shows its last hop |
| TraceRoutes.CompleteRouteShowsWrittenTrace | internal/graph/queries_read.go:932-1107 | the same whichever flushes failed, for every traceroute whose own operations took effect |
| TraceRoutes.WrittenNodesAreListedOnce | internal/graph/queries_read.go:1045-1078 | a route graph of a graph the writer filled, whichever flushes failed, lists every node once and keeps to the node limit |
| TraceRoutes.MovedAddressIsListedTwice | internal/graph/queries_read.go:1045-1078 | a concrete graph, written by two queries that give an address different ASes, in which every route graph lists its one node twice, beyond a node limit of 1 |
| TraceRoutes.RunFollowsLookup | internal/graph/store.go:356-384 | in every run of write queries and prune batches whose writes come from one address-to-AS database, every address belongs to the AS of the lookup |
| TraceRoutes.FlushesAreLookedUp | internal/graph/store.go:258-346 | all queries of all flushes of the writer are such writes |
| TraceRoutes.RunNodesAreListedOnce | internal/graph/queries_read.go:1045-1078 | so a route graph taken at any moment of such a run lists every node once and keeps to the node limit |
| TraceRoutes.PruningFollowsLookup | internal/graph/retention.go:77-96 | a prune pass leaves every remaining address with the AS of the lookup |
| Janitor.RemoveLeavesRest | internal/graph/retention.go:77-96 | deleting some matches of a prune query leaves exactly its other matches, although nodes take their relationships with them |
| Janitor.RemoveKeepsFresh | internal/graph/retention.go:77-96 | what one prune query deletes is never a relationship seen since the cutoff, except a location whose IP goes |
| Janitor.StaysClean | internal/graph/retention.go:84-103 | no later query of the fixed order gives an earlier, finished one anything new to delete |
| Janitor.Store.PruneBatches | internal/graph/retention.go:107-129 | deletes matches only, as many as there are up to 100 times the batch size, and returns that number |
| Janitor.Store.Prune | internal/graph/retention.go:67-105 | rejects a bad cutoff or batch size without touching the graph; otherwise runs the eight queries in order and returns exactly the numbers of relationships and nodes that are gone, but for locations and IN_AS relationships that went with a node |
| Janitor.NodesTakeNoMeasurement | internal/graph/retention.go:92-96 | deleting nodes takes no measurement with it, in no state of the graph: not for probes, not for IPs, not for ASes |
| Janitor.DeletionsAreCounted | internal/graph/retention.go:67-105 | in every pass, capped or not, the relationships counted are the measurements gone and the stale locations deleted, and the nodes counted are the nodes gone |
| Janitor.StagesAreSafe | internal/graph/retention.go:84-103 | at every stage of a pass, capped or not, nothing dangles, no probe lags behind its measurements and no fresh relationship has been lost |
| Janitor.PruneIsFixpoint | internal/graph/retention.go:64-105 | if no query hit its cap, a second pass with the same cutoff deletes nothing |
| Janitor.PruneLeavesFresh | internal/graph/retention.go:77-96 | if no query hit its cap, exactly the PING, TARGETS, NEXT_HOP and TRANSITS relationships seen since the cutoff remain |
| Janitor.OnlyForgottenIpsGo | internal/graph/retention.go:94-94 | no pass, capped or not, deletes an IP that was seen since the cutoff or that a fresh measurement touches |
| Janitor.PruneForgetsIps | internal/graph/retention.go:94-94 | if no query hit its cap, an IP is deleted if and only if it was not seen since the cutoff and no fresh measurement touches it |
| Janitor.OnlyForgottenProbesGo | internal/graph/retention.go:93-93 | no pass, capped or not, deletes a probe that was seen since the cutoff |
| Janitor.PruneForgetsProbes | internal/graph/retention.go:93-93 | if no query hit its cap, a probe is deleted if and only if it was not seen since the cutoff: none is kept back by a relationship |
| Janitor.OnlyForgottenLocationsGo | internal/graph/retention.go:82-94 | no pass, capped or not, deletes a location unless it, its probe or its IP is forgotten |
| Janitor.PruneForgetsLocations | internal/graph/retention.go:82-94 | if no query hit its cap, a location is deleted if and only if it, its probe or its IP is forgotten |
| Janitor.InASGoesWithIp | internal/graph/retention.go:94-95 | after any pass, capped or not, exactly the IN_AS relationships of the remaining IPs remain |
| Janitor.OnlyForgottenASesGo | internal/graph/retention.go:95-95 | no pass, capped or not, deletes an AS with a remembered address or a fresh TRANSITS |
| Janitor.PruneForgetsASes | internal/graph/retention.go:95-95 | if no query hit its cap, an AS is deleted if and only if all its addresses are forgotten and no fresh TRANSITS touches it |
| Janitor.PruneLosesLocationExactly | internal/graph/retention.go:82-94 | a pass, capped or not, loses a fresh location only if its IP is forgotten in that sense; if no query hit its cap, if and only if |
| Janitor.LateTraceLosesLocation | internal/graph/retention.go:94-94 | a concrete graph, written by two queries, whose fresh location a pass deletes |
| Janitor.RunIsSafe | internal/graph/retention.go:77-96 | in every run of write queries and prune batches, interleaved in any way, every graph is well formed and no deletion loses a fresh measurement |
| AlertStore.SavedComparisonsDecide | internal/alert/model.go:116-120 | the comparisons a rule may be saved with are exactly those that some value can fire, and each also has a value that resolves it |
| AlertStore.ComparisonsAsNamed | internal/alert/evaluator.go:199-213 | what each comparison says of values below, at and above the threshold |
| AlertStore.RuleIsValidExactly | internal/alert/model.go:101-133 | a rule is valid if and only if its name is not white space throughout and its settings are known and in range |
| AlertStore.EraseIsExact | internal/alert/store.go:168-184 | deleting a rule forgets the state and history of all its scopes and of no other |
| AlertStore.Store.CreateRule | internal/alert/store.go:122-141 | an invalid rule changes nothing; a valid one gets an id never given out before and has no state or events |
| AlertStore.Store.UpdateRule | internal/alert/store.go:144-165 | an invalid rule changes nothing; a valid one replaces the rule but for id and creation time, and an unknown id is echoed back without effect |
| AlertStore.Store.DeleteRule | internal/alert/store.go:168-184 | removes the rule, its states and its events and disturbs no other rule |
| AlertStore.Store.ListEvents | internal/alert/store.go:230-253 | the events of existing rules under their names, latest first; one is left out only when as many others as the limit says are shown, none of them earlier |
| AlertStore.Store.ListActiveEvents | internal/alert/store.go:266-289 | for every existing rule exactly the scopes whose last event is fired, each with the time of that event and its current value |
| AlertStore.Store.ServeApi | internal/alert/store.go:122-184 | any number of rule requests, served while at most one scope is between its event and its state, leaves every scope of a surviving rule as it was and revives no deleted rule |
| AlertEvaluator.CrossingExists | internal/alert/evaluator.go:110-115 | a scope counts as firing if and only if one of its rows crosses the threshold, repeated rows included |
| AlertEvaluator.NextCellIsCoherent | internal/alert/evaluator.go:124-179 | one evaluation leaves a scope firing if and only if a row crosses, records an event if and only if that changes, keeps fired_at through an episode, and keeps state and history consistent |
| AlertEvaluator.NextCellRecords | internal/alert/evaluator.go:124-179 | a firing scope shows the value and context of its last crossing row, and a new alert records them; a resolved one shows and records the value of its first row, or 0 without one; any other scope is left alone |
| AlertEvaluator.EvaluatedIsCoherent | internal/alert/evaluator.go:124-179 | after any evaluations the events alternate starting with fired, all but an open episode are resolved, and the state is firing if and only if the last evaluation had a crossing row |
| AlertEvaluator.Evaluator.EvaluateRule | internal/alert/evaluator.go:86-181 | with requests served between any two store calls: if the rule still exists, each of its scopes took exactly one step; no other rule's scope changed; the tables are consistent again at the end |
| AlertEvaluator.Evaluator.Tick | internal/alert/evaluator.go:50-74 | each scope of an enabled rule whose query succeeded takes exactly one step, every other scope none |
| AlertEvaluator.TickResolvesExactly | internal/alert/evaluator.go:57-70 | a tick resolves an open alert if and only if its rule was enabled, its query succeeded and no row of the scope crosses the threshold |
| AlertEvaluator.TickFiresExactly | internal/alert/evaluator.go:57-70 | a tick opens an alert if and only if its rule was enabled, its query succeeded and a row of the scope crosses; otherwise the scope stays as it was |
| AlertEvaluator.DisabledAlertStaysListed | internal/alert/evaluator.go:61-63 | a concrete alert that stays listed as active after its rule is disabled and the evaluator ticks |
| AlertEvaluator.Evaluator.Run | internal/alert/evaluator.go:33-47 | over all ticks and requests the tables stay consistent, histories only grow and deleted rules stay deleted |
| AlertEvaluator.DeletedIsInvisible | internal/alert/store.go:190-237 | no listing mentions a deleted rule again, whatever an evaluation in flight still wrote for it |
| SelectLoop.DeliveredOnceStopped | internal/store/store.go:182-217 | nothing is delivered to a writer that has stopped |
| SelectLoop.DeliveredExactly | internal/store/store.go:182-217 | a writer takes every record up to the close of its input or a cancellation, what is then buffered only if cancelled, and nothing more |
| RowWriter.NothingIsLost | internal/store/store.go:157-218 | every record received is in exactly one posted batch or still waiting, in the order received |
| RowWriter.BatchesAreSized | internal/store/store.go:182-217 | no posted batch is empty, only the one of the shutdown drain may exceed the batch size, and nothing is waiting after a tick or the end |
| RowWriter.WhenPosted | internal/store/store.go:182-217 | no batch is posted early: when one is, everything delivered so far has been handed over with it, and unless that was at a tick or the end it was full |
| RowWriter.RowsAreAccounted | internal/store/store.go:157-177 | received rows are waiting, inserted or failed |
| RowWriter.Writer.Run | internal/store/store.go:145-220 | for any sequence of events the loop posts exactly the batches the specification gives, and its counters are the rows and batches that were accepted |
| Pipeline.RecordsAreConserved | internal/pipeline/tee.go:23-59 | in every reachable state: no closed channel is sent to or closed again; the tee observes what was sent, in order; for each sink, observed is dropped plus queued plus received plus in hand; accepted records are a subsequence of the observed; nothing is dropped before the channel was first full; the logged total is the number sent |
| Pipeline.ProduceKeeps | internal/atlas/stream.go:102-181 | no connection sends after the stream was closed, and every record sent is in the shared total or still held by its connection |
| Pipeline.CloseOrLogKeeps | internal/atlas/stream.go:128-132 | the stream is closed only after every connection has reported, so the logged total misses none |
| Pipeline.WrittenKeepsAccepted | internal/store/store.go:182-217 | a writer, draining or not, neither loses nor reorders what its channel held |
| Pipeline.NoDropsMeansAll | internal/pipeline/tee.go:45-55 | a sink for which nothing was dropped got exactly what was observed |
| Pipeline.InsertedRowsAreAccounted | internal/store/store.go:145-220 | for the ClickHouse sink, observed is dropped, queued, in hand, being drained, in the batch, inserted or failed, and an ended writer has an empty batch |
| Pipeline.UncancelledEndIsComplete | internal/pipeline/tee.go:38-41 | when the stream ended without cancellation and a writer is done, every record ever sent was dropped for it or received by it |
| Pipeline.CancelledNeverStuck | internal/pipeline/tee.go:25-58 | in every reachable state after cancellation, everything has stopped or a shutdown step can be taken |
| Pipeline.ShutdownShrinks | internal/atlas/stream.go:153-181 | every shutdown step of a connection, the tee or a writer leaves less to do, so shutdown ends under any schedule of them |
| Pipeline.ClosedNeverStuck | internal/pipeline/tee.go:25-58 | in every reachable state after the stream was closed, even without cancellation, everything has stopped or a step that empties the channels can be taken |
| Pipeline.DrainingShrinks | internal/pipeline/tee.go:25-58 | every such step leaves less to do, so the pipeline runs dry under any schedule of them |
| Pipeline.QueuedCanBeTaken | internal/store/store.go:182-217 | in every reachable state a writer that has not ended can take the first record of its channel |
| SqlText.SplitStatements | internal/store/store.go:80-139 | the loop with its quote, comment and lookahead state computes the declarative split of the input |
| SqlText.LexIsLossless | internal/store/store.go:84-135 | the tokens, put together, are the input |
| SqlText.SegmentsKeepText | internal/store/store.go:132-138 | the segments, put together, are the kept text in order, one more than there are top-level semicolons |
| SqlText.DroppedIsComments | internal/store/store.go:104-122 | only the text of line comments is dropped |
| SqlText.TrimDropsSpacesExactly | internal/store/store.go:87-87 | trimming takes away white-space characters at both ends, all of them and nothing else; they are the 25 of Unicode, written out |
| SqlText.BlankExactly | internal/store/store.go:87-87 | what is trimmed to nothing is white space throughout |
| SqlText.StatementsShowNoSpaceAround | internal/store/store.go:86-91 | no statement is empty, starts or ends with a white-space character |
| SqlText.SplitAtSemicolon | internal/store/store.go:132-133 | a semicolon after text that ends outside quotes and comments splits there, and the two sides split as if they stood alone |
| SqlText.UnquotedSemicolonSplits | internal/store/store.go:122-135 | that is every semicolon after text without a quote character and without "--" |
| SqlText.QuotedIsOneStatement | internal/store/store.go:104-131 | between two single quotes, double quotes or backquotes nothing splits and nothing is a comment |
| SqlText.SplitGivesStatements | internal/store/store.go:80-139 | every statement is trimmed, not empty, and has no unquoted ";" or "--"; only the last may leave a quote open |
| SqlText.SplitOfJoin | internal/store/store.go:80-139 | any list of such statements, joined with ";", splits into itself |
| SqlText.RoundTrip | internal/store/store.go:80-139 | joining the statements with ";" and splitting again gives the same list, for every input |
| SqlText.EscStr | internal/store/query.go:86-99 | the loop builds the escaped literal of the value |
| SqlText.UnescapeInverts | internal/store/query.go:90-96 | undoing the backslash escapes gives the value back |
| SqlText.LiteralIsOpaque | internal/store/query.go:86-99 | the splitter sees the literal of any value as one statement, and its inside unescapes to the value |
| SqlText.EmbeddedLiteralIsOpaque | internal/store/query.go:83-99 | after any text that ends outside quotes and comments, a literal is lexed as one closed piece that only continues the statement it stands in, and what follows is lexed as if it stood alone |
| IngestionMeter.RingIsExactUnlessOverwritten | internal/pipeline/ingestion_meter.go:51-119 | the ring shows the true count of a second if and only if no different second of the same slot was observed after it |
| IngestionMeter.ClockStepLosesCount | internal/pipeline/ingestion_meter.go:62-66 | a concrete history in which an observed second shows no count |
| IngestionMeter.RingIsExact | internal/pipeline/ingestion_meter.go:51-119 | if no observation lags 60 seconds, the last minute is exact |
| IngestionMeter.SlotIsResidue | internal/pipeline/ingestion_meter.go:58-61 | truncated remainder and correction together give the residue, for negative seconds too |
| IngestionMeter.StartedIsEarliest | internal/pipeline/ingestion_meter.go:55-57 | for positive seconds the start is the earliest of the creation and all observations |
| IngestionMeter.Meter.ObserveAt | internal/pipeline/ingestion_meter.go:51-68 | the array is the ring of all observations so far, in place |
| IngestionMeter.Meter.SnapshotAt | internal/pipeline/ingestion_meter.go:75-107 | the total is the number of observations, the samples are the true counts of the last 60 seconds, and the rate is the observations of the last five completed seconds over the seconds counted |
| Issues.SeverityFromLoss | internal/api/issues.go:298-309 | always one of three severities, critical only with enough probes |
| Issues.OrderedUnlessUnknown | internal/api/issues.go:323-340 | two issues with different ids are left unordered if and only if their severities are different and both unknown |
| Issues.RankingIsStrictTotalOrder | internal/api/issues.go:323-340 | on the severities that are ever assigned, the ranking is a strict total order of issues with distinct ids |
| Issues.IssueLessTransitive | internal/api/issues.go:323-340 | the ranking is transitive |
| Issues.RankedReads | internal/api/issues.go:323-340 | in a ranked list alerts come first, then critical before high before watch, then more samples, then seen later, then the smaller id |
| Issues.StringLessAtDifference | internal/api/issues.go:339-339 | ids compare at the first byte in which they differ, a prefix being smaller |
| Issues.RepresentativeExactly | internal/api/issues.go:355-370 | the issue shown for an id is its first alert; without one, its first issue |
| Issues.IdsByAppearance | internal/api/issues.go:355-370 | ids stand in the order in which they first appear |
| Issues.DedupeIssues | internal/api/issues.go:355-370 | one issue per id, in order of first appearance: its first alert if it has one, else its first issue |
| Issues.StableSortRanks | internal/api/issues.go:91-93 | with known severities and distinct ids, sorting ranks every issue strictly before all later ones |
| Issues.RankingIsUnique | internal/api/issues.go:91-93 | there is only one such order, so it does not matter how the library sorts |
| Issues.FilterInPlace | internal/api/issues.go:96-104 | the front of the reused array is the issues of the severity, in order |
| Issues.Respond | internal/api/issues.go:87-109 | deduplicates, ranks, filters and cuts, in that order, with the limit clamped to 1 to 50 |
| Issues.ResponseIsTop | internal/api/issues.go:87-109 | the response is the top of the filtered ranking: nothing left out ranks before anything shown, and nothing is left out below the limit |
| Issues.ResponseIgnoresOrder | internal/api/issues.go:87-109 | inputs with the same representative per id are ranked the same, whatever their order |
| Issues.PermutedResponse | internal/api/issues.go:87-109 | issues with distinct ids get the same response in whatever order they are collected |

## Left out

- Concurrency of the pipeline is modelled as steps on values, each step one channel operation or one move of a goroutine, instead of goroutines that update in place; the loops of the tee and of the connections appear there as guarded steps. The two writers are also modelled as loops over whatever their select statement delivers.
- Failed database calls: in a flush of the topology writer any query may fail, with or without having taken effect as a whole; the queries of a prune pass and of the alert store succeed, although `Janitor.RunIsSafe` covers runs in which a pass ends early. Inserts into ClickHouse, route graph lookups of unknown addresses and alert queries may fail. A cancelled context inside `IPRouteGraph` is not modelled; a flush under a cancelled context is one that fails before its first query. A tick cut short by cancellation is one in which the remaining queries fail.
- Retries of an insert, their backoff and rows duplicated by a retry: an insert succeeds or fails as a whole.
- JSON decoding and encoding: a record carries its decoded payloads or their absence, and the context of an alert is a text.
- The address-to-AS database is a fixed function of the address during one run of the writer, and node ids of the graph database are the addresses.
- Integer widths, wrap-around and floating-point rounding: counters are unbounded and measurements are real numbers.
- The `last_seen` of an IP and the LOCATED_AT relationships of a batch that mixes source addresses of one probe depend on the order of queries within a flush; independence from flush boundaries is claimed for the measured relationships and for probes only. Within a query each clause handles all rows in list order before the next clause does; only replacing a probe's location is done row by row.
- Probe metadata, node labels, the time, count and last_seen columns of route graph edges, the organization of route graph nodes, the AS number a node falls back to when it has no IN_AS relationship, and the order of nodes by address.
- `StableSort` stands for the library's stable sort; `RankingIsUnique` shows that any correct sort gives the same order.
- Ticks, timers and intervals: a tick may come at any time, and the clock may show anything.
- The evaluated counter and all logging of the evaluator, and the drop counter that the tee shares between its sinks: the model counts drops per sink.
- Reconnecting, idle timeouts and HTTP errors of the stream: a connection may end and be opened again at any time.
- The parts of an issue's evidence taken from ClickHouse windows, the conversion of alerts to issues, and the queries that detect issues: the handler is modelled from the collected list on.
- HTTP handlers, the web interface, pagination, caches, environment and flags, and all other query texts.
