# EliteEvents, verified

A Dafny model of the parts of EliteEvents whose correctness does not follow from reading one
function, with proofs of what they promise.

EliteEvents splits the EDDN broadcast feed over sharded consumers, aggregates it into Redis
under keys that expire, serves it through a search index and a live ticker, and runs the
consumers from a Kubernetes controller. The model follows that structure:

| file | models |
|---|---|
| `Cluster`, `Labels`, `ConfigDigest`, `Resources`, `Controller`, `Status` | the FeedListener controller: reconcile, shard pruning, the schedule handoff, ordered teardown, status |
| `MessageShardFilter`, `KnownHashes`, `DockingWriter`, `Sharding` | sharded ingestion |
| `Redis`, `RedisKeys`, `Text`, `Glob`, `Names`, `Search`, `DockingReader`, `SearchIndexMaintainer`, `IndexedSystems` | the data in Redis, its search index and its readers |
| `EventStream`, `StreamEndpoint`, `LiveEventHub`, `StreamReceiver` | the server-sent-event ticker and its fan-out, and the silence timing of the receiver |
| `KeyMigration` | the key migration script |
| `Bits`, `Sets`, `Wrappers` | bit arithmetic on integers, set sizes, `Option` |

## What is proved

- **Teardown safety.** `Controller` runs the passes of the controller call by call. Between any two API
  calls anything else may happen, any number of times: pods start and end, cron ticks spawn Jobs, Jobs
  finish, people edit the listener and delete it or any child, calls fail before or after taking effect. `AnyRun` shows that no
  consumer or rebuild pod exists in any state of any run in which the drain Job exists, and that no child
  ever exists under a listener whose deletion would skip teardown.
- **The order of teardown is needed.** Purged keys stay gone whatever happens if and only if no writer runs and
  none can be started, which is the state `StopWriters` establishes before the drain Job is created.
- **Drained stays drained.** Once the finalizer is released after a successful drain, both index keys
  and the heartbeat key are absent in every later state.
- **Teardown terminates and never wedges.** Every exit of `Reconcile` that leaves the finalizer held is
  an error or a positive requeue; the finalizer is released only after a finished drain or because the
  indexes are to be retained; a drain is given up exactly at its fourth failed attempt; and `Teardown` ends,
  because `Cluster.Rank` falls with every pod that ends and every drain attempt.
- **Reconcile converges.** A successful pass leaves exactly the shards 0..consumers-1 on one configuration;
  every message then has one owner and the periodic rebuild one owner; a second pass writes no child.
- **Sharding refines one consumer**, for every shard count, frame sequence and command-level interleaving,
  and what both leave behind is the count of the feed.
- **The reader agrees with the log** of dockings through every expiry, for system names with colons too, and
  finds a docking under another name exactly when the two names agree up to case.
- **Rebuilds under concurrent writers** keep every name whose key was there throughout and every name first
  indexed once the scan had begun, drop every name without a live key that no writer puts back, and invent
  none. Left alone, a rebuild indexes exactly the systems the log shows docked at within thirty days, if and
  only if none of them has a colon in its name.
- **Prefix ranges are exact, an escaped glob means substring, and the two-pass search** is the sorted
  list of hits for every scan order exactly when the prefix hits fill the page or at most 5000 other names
  match.
- **The hash** finalizer is a bijection, one changed code unit always changes the hash, and the hashes of the
  tests' first two messages are worked out.
- **The event stream round-trips** through a parser of the WHATWG HTML standard, sections 9.2.5 and 9.2.6,
  and does so, for a frame and for a whole connection, exactly when every text is clean.
- **Fan-out serves everyone.** Over any run of publishes, with clients coming, reading and leaving at any
  moment, a client that stays is written every frame published, once and in order, reads as often as it
  asks, and misses a frame only after a hundred newer unread ones.
- **Every decision to reconnect finds the health check failing**, and decisions are more than the threshold
  apart.
- **Key migration loses nothing**, and a live run over every key without failing calls leaves no key whose
  normalized form is free.

## Where the code meets a property only under a condition

- `RedisKeys.ExtractName` returns the name a key was built from exactly when the name has no colon
  (`RedisKeys.ExtractNameRoundTrip`), so a rebuild keeps a live name exactly when it has no colon
  (`SearchIndexMaintainer.LiveNameIsFoundExactly`). The live system `A:B` is dropped, and a system `A` that
  nobody docked at is indexed in its place (`SearchIndexMaintainer.ColonExample`).
- A ticker frame is read back as its two events exactly when its JSON has no line end and its HTML has a
  carriage return only before a line feed or at its end (`StreamEndpoint.FrameRoundTripExactly`), and a
  connection exactly when this holds of every frame on it (`StreamEndpoint.ConnectionRoundTrip`).
- The search answers with the beginning of the sorted list of all hits, whatever order the scan returns
  names in, exactly when the prefix hits fill the page or at most 5000 other names match
  (`Search.ExactlyWhenItFits`). With 5001 names that contain the query and none that starts with it, a scan
  that returns the smallest one last makes the page miss it (`Search.OneTooMany`). `Search.Sound` holds
  always.

## Assumptions

- A run starts with no drain begun and no child under a listener without its finalizer. One controller is
  active and reads are fresh. A deleted or deleting Deployment, CronJob or Job starts
  nothing new. Only the controller creates these objects, and no drain Job is left over from an earlier
  resource of the same name. No other listener uses the same Redis.
- `calm` says that no person edits or deletes objects during a pass, `reliable` that API calls do not fail
  other than by conflict. Safety and the exits need neither; termination needs both; convergence needs
  `calm`, a successful pass, and no child in the middle of a foreground deletion.
- Redis evicts nothing. A batch reaches the server as one unit in `DockingReader`, command by command in
  `Sharding`.

## Model

| member | source | states |
|---|---|---|
| `Cluster.QuietStays` | operator/internal/controller/finalizer.go:119-126 | once nothing can start a writer and none runs, no outside action changes that, and the Redis keys can only disappear |
| `Cluster.PurgedMeansEmpty` | EliteEvents.Ingestion/PurgeCommand.cs:35-48 | an exit code of 0 is given only after a completed purge, so in a quiet cluster a recorded success means the keys are gone |
| `Cluster.ActKeepsInv` | operator/internal/controller/finalizer.go:44-57 | no action outside the controller breaks the invariant: a drain exists only in a quiet cluster whose listener is leaving, and after a purge the keys are gone |
| `Cluster.GuardedStays` | operator/internal/controller/feedlistener_controller.go:62-78 | no outside action leaves a child under a listener whose deletion would skip teardown |
| `Cluster.WaitedForShrinks` | operator/internal/controller/finalizer.go:177-191 | in a halted cluster no action adds a pod teardown waits for; the drain's own pods are not among them |
| `Cluster.RankNeverGrows` | operator/internal/controller/finalizer.go:78-117 | progress is never lost, and what is waited for can only stop being waited for by progress |
| `Cluster.EndingAPodLowersRank` | operator/internal/controller/finalizer.go:177-191 | every writer pod that ends brings release nearer |
| `Cluster.DrainAttemptLowersRank` | operator/internal/controller/finalizer.go:97-117 | every finished drain attempt, successful or not, brings release nearer |
| `Cluster.DrainFailsAtTheFourthAttempt` | operator/internal/controller/finalizer.go:228-239 | whatever happens meanwhile, a new drain Job counts as failed exactly from its fourth failed attempt on |
| `Cluster.KeysStayGoneExactly` | operator/internal/controller/finalizer.go:44-57 | purged keys stay gone whatever happens if and only if no writer runs and none can be started: what teardown brings about before it purges is needed |
| `Cluster.ActIsLater` | operator/internal/controller/finalizer.go:44-57 | what a deletion order may rely on while anything happens: deletions are not undone, stopped stays stopped, a held listener stays held |
| `Labels.PopulationsAreDisjoint` | operator/internal/controller/finalizer.go:32-42 | the consumer, rebuild and drain pods are told apart by their labels, whatever the listeners' names; teardown never waits for itself |
| `Labels.OwnPodsAreFound` | operator/internal/controller/resources.go:91-122 | a pod is found by its own listener's selectors and by no other listener's |
| `Labels.OwnedShardRoundTrip` | operator/internal/controller/resources.go:453-466 | a shard Deployment is recognized as the shard it was built for, over the whole int32 range |
| `Labels.NoOtherIsOwned` | operator/internal/controller/resources.go:453-466 | another listener's shard, a rebuild, a drain and an object without a shard are never taken for an owned shard |
| `Labels.DeploymentNameInjective` | operator/internal/controller/resources.go:70-72 | Deployment names are distinct over listeners and shards, even for names with dashes and digits |
| `Labels.AtoiItoa` | operator/internal/controller/resources.go:461-465 | decimal rendering and parsing are inverse |
| `ConfigDigest.CollectKeys` | operator/internal/controller/resources.go:169-173 | collects every key once, whatever the iteration order |
| `ConfigDigest.HashConfigData` | operator/internal/controller/resources.go:169-184 | the digest's input is a function of the contents alone, independent of map iteration order |
| `ConfigDigest.InputTellsApart` | operator/internal/controller/resources.go:166-184 | two NUL-free configurations have the same digest input exactly when they are equal |
| `Resources.DigestStandsForConfig` | operator/internal/controller/resources.go:140-184 | the digest input changes exactly when the shard count or the periodic switch does |
| `Resources.MadeUnderItsName` | operator/internal/controller/feedlistener_controller.go:155-166 | a Deployment found under a shard's name carries that shard's immutable selector |
| `Resources.ConvergedMeans` | operator/internal/controller/resources.go:72-85 | in the settled state, in the spec's own fields: a CronJob exactly when the schedule is there and not empty, on that schedule, and then no consumer's timer; one pod at a time per shard, told its index and the number of consumers |
| `Resources.ConvergedIsUnique` | operator/internal/controller/feedlistener_controller.go:46-47 | name and spec determine the settled children |
| `Resources.EveryMessageHasOneHandler` | operator/internal/controller/resources.go:235-265 | in a settled cluster exactly one Deployment's pod owns each message, the one the hash picks |
| `Resources.OnePeriodicRebuilder` | EliteEvents.Ingestion/Services/SearchIndexMaintenanceService.cs:63-99 | in a settled cluster exactly one thing rebuilds periodically: the CronJob if the spec has a schedule that is not empty, shard 0's timer otherwise |
| `Controller.FeedListenerReconciler.Environment` | operator/internal/controller/finalizer.go:44-57 | any finite activity of the cluster and its users keeps the run's invariant in every state |
| `Controller.FeedListenerReconciler.StopShards` | operator/internal/controller/finalizer.go:137-153 | when it succeeds every Deployment is gone or going, though the list was a snapshot |
| `Controller.FeedListenerReconciler.StopRebuilds` | operator/internal/controller/finalizer.go:155-175 | with the CronJob stopped first, when it succeeds every rebuild Job is gone or going |
| `Controller.FeedListenerReconciler.WritersGone` | operator/internal/controller/finalizer.go:177-192 | its answer is true of the moment it is given: no writer is left, or a pod is still waited for |
| `Controller.FeedListenerReconciler.StopWriters` | operator/internal/controller/finalizer.go:127-193 | success means nothing can start a writer; `stopped` means in addition that none is running |
| `Controller.FeedListenerReconciler.EnsureDrainJob` | operator/internal/controller/finalizer.go:198-218 | creates the drain Job only in a quiet cluster, with no attempt made, and returns its current state |
| `Controller.FeedListenerReconciler.ReleaseFinalizer` | operator/internal/controller/finalizer.go:220-226 | releases or reports an error; a release after a successful drain starts the drained period |
| `Controller.FeedListenerReconciler.Drain` | operator/internal/controller/finalizer.go:89-117 | releases after a success, or after four failed attempts or the cluster's word that the Job failed, and not before; a drain that is over is let go of at once, and one that still runs is come back to in 5 s |
| `Controller.FeedListenerReconciler.StopAndDrain` | operator/internal/controller/finalizer.go:74-117 | both steps in order: with calls succeeding it releases, or leaves a halted cluster waiting for a pod or a drain attempt |
| `Controller.FeedListenerReconciler.Finalize` | operator/internal/controller/finalizer.go:57-117 | never lets go silently; releases after a drain that succeeded, failed four times or is reported failed, or untouched when the indexes are to be retained; with calls succeeding it releases or comes back in 5 s to something that ends, no farther from release than before |
| `Controller.FeedListenerReconciler.ReconcileConfig` | operator/internal/controller/feedlistener_controller.go:104-120 | a successful call leaves the ConfigMap of the spec and no other change |
| `Controller.FeedListenerReconciler.ReconcileShard` | operator/internal/controller/feedlistener_controller.go:148-170 | a successful call leaves the shard's Deployment as desired and no other change; a current one is not written |
| `Controller.FeedListenerReconciler.PruneStaleShards` | operator/internal/controller/feedlistener_controller.go:231-256 | a successful call removes exactly the shards outside the partition |
| `Controller.FeedListenerReconciler.ReconcileShards` | operator/internal/controller/feedlistener_controller.go:147-173 | a successful call leaves exactly the shards 0..consumers-1, each as desired; a settled partition is not written |
| `Controller.FeedListenerReconciler.ReconcileMaintenance` | operator/internal/controller/feedlistener_controller.go:183-229 | a successful call leaves the CronJob exactly when the spec's schedule is there and not empty, and on that schedule |
| `Controller.FeedListenerReconciler.RegisterFinalizer` | operator/internal/controller/feedlistener_controller.go:73-78 | adds the finalizer to the object as it was read, or fails; no child is written before |
| `Controller.FeedListenerReconciler.ReconcileLive` | operator/internal/controller/feedlistener_controller.go:62-100 | a successful pass over a live listener converges, and writes nothing if it already had |
| `Controller.FeedListenerReconciler.Reconcile` | operator/internal/controller/feedlistener_controller.go:48-100 | every state keeps the invariant; a held listener is never left without an error or a requeue; teardown makes progress; a successful pass converges and a second one writes no child |
| `Controller.FeedListenerReconciler.AnyRun` | operator/internal/controller/finalizer.go:57-218 | in every state of every run, no consumer or rebuild pod beside the drain Job and no child under a listener without the finalizer; what was drained stays drained |
| `Controller.FeedListenerReconciler.Teardown` | operator/internal/controller/finalizer.go:57-226 | with pods ending and drain attempts finishing, passes lead to release |
| `Controller.PrunedIsSettled` | operator/internal/controller/feedlistener_controller.go:231-256 | pruning leaves the shards of the partition and no other |
| `Controller.NobodySelected` | operator/internal/controller/finalizer.go:177-191 | empty pod lists for both selectors mean that no writer runs |
| `Status.IsPodReady` | operator/internal/controller/status.go:257-267 | running with a true Ready condition, the first one deciding |
| `Status.AllHeardByCount` | operator/internal/controller/status.go:93-121 | when ready pods run distinct shards of the partition, as many hearing pods as shards means every shard is heard, and conversely |
| `Status.FeedListenerStatus.SetAvailability` | operator/internal/controller/status.go:172-202 | sets Available and Progressing from the ready count and leaves the other conditions alone |
| `Status.FeedListenerStatus.SetStreaming` | operator/internal/controller/status.go:207-227 | Streaming holds exactly when every consumer is hearing and there is one |
| `Status.FeedListenerStatus.Observe` | operator/internal/controller/status.go:93-121 | counts ready and hearing pods and finds the latest message reported |
| `Status.FeedListenerStatus.ReconcileStatus` | operator/internal/controller/status.go:82-145 | the phase sums up the conditions: Pending without an available consumer, Progressing with some missing, Streaming when all hear, Silent otherwise; Streaming means every shard is heard, and conversely; not Degraded |
| `Status.FeedListenerStatus.StreamingMeansAllHeard` | operator/internal/controller/status.go:229-240 | the derived phase is Streaming exactly when every shard of the partition is heard |
| `Status.FeedListenerStatus.MarkDegraded` | operator/internal/controller/status.go:242-255 | a failed pass shows as Degraded with its reason, no other condition changes, and the phase is none that the pods could derive |
| `MessageShardFilter.StableHash` | EliteEvents.Eddn/MessageShardFilter.cs:84-102 | the loop computes FNV-1a over the code units followed by the finalizer, with 32-bit wrap-around |
| `MessageShardFilter.MixIsBijective` | EliteEvents.Eddn/MessageShardFilter.cs:96-100 | the final mix is a bijection on 32-bit words |
| `MessageShardFilter.OneUnitChangesTheHash` | EliteEvents.Eddn/MessageShardFilter.cs:84-102 | equal-length messages that differ in exactly one code unit never share a hash |
| `MessageShardFilter.RawDigestLowBits` | EliteEvents.Eddn/MessageShardFilter.cs:73-95 | before the mix, the low k bits (k up to 8) depend only on the low k bits of each byte |
| `MessageShardFilter.RawDigestParity` | EliteEvents.Eddn/MessageShardFilter.cs:73-95 | before the mix, bit 0 is the negated parity of the bytes' low bits |
| `KnownHashes.EmptyMessage` | EliteEvents.Eddn.Tests/MessageShardFilterTests.cs:65 | the empty message has the hash the tests expect |
| `KnownHashes.MessageA` | EliteEvents.Eddn.Tests/MessageShardFilterTests.cs:66 | so has the message "a", its low byte absorbed before its high byte |
| `MessageShardFilter.MakeFilter` | EliteEvents.Eddn/MessageShardFilter.cs:34-52 | a filter exists exactly for an index within a positive count |
| `MessageShardFilter.Owner` | EliteEvents.Eddn/MessageShardFilter.cs:54-62 | every message has exactly one owning shard |
| `Sharding.OwnedIsOwns` | EliteEvents.Ingestion/Services/EddnStreamReceiver.cs:71-75 | a frame is handled exactly by the shard whose filter owns it |
| `Sharding.Consumer.Receive` | EliteEvents.Ingestion/Services/EddnStreamReceiver.cs:62-77 | counts every frame, handles the owned ones, and issues exactly their commands in order |
| `Sharding.HandlerIsProper` | EliteEvents.Ingestion/Handlers/JournalMessageHandler.cs:23-82 | every command of every event is right for the type of its key |
| `Sharding.PartitionTally` | EliteEvents.Eddn/MessageShardFilter.cs:54-62 | the shards' effects on a counter or a membership add up to those of the whole feed |
| `Sharding.EventTally` | EliteEvents.Ingestion/Handlers/JournalMessageHandler.cs:46-82 | an event bears once on the counter and the memberships it concerns, and on nothing else |
| `Sharding.StationCounterFollowsName` | EliteEvents.Eddn/Storage/DockingWriter.cs:72-86 | the counter a reader looks up for a station counts exactly the dockings there, in a system of that name up to case |
| `Sharding.CarrierCounterFollowsName` | EliteEvents.Eddn/Storage/DockingWriter.cs:46-58 | a carrier's counter of a day counts exactly its dockings of that day, its id up to case |
| `Sharding.VisitsFollowName` | EliteEvents.Eddn/Storage/DockingWriter.cs:104-118 | the visits of a system are exactly the jumps to it, its name up to case |
| `Sharding.ShardedReading` | EliteEvents.Eddn/Storage/DockingWriter.cs:46-121 | after any interleaving of the shards' commands a counter or membership is what the whole feed makes it |
| `Sharding.ShardingRefinesOneConsumer` | EliteEvents.Ingestion/Services/EddnStreamReceiver.cs:62-77 | N filtered consumers leave the same counters and memberships as one, for every interleaving |
| `Sharding.ShardsCountTheFeed` | EliteEvents.Eddn/Storage/DockingWriter.cs:46-121 | after any interleaving of any number of shards, a counter has grown by the number of frames it counts, and a name is a member exactly if it was one or a frame makes it one |
| `Sharding.HeartbeatIsUnmanaged` | EliteEvents.Ingestion/Services/EddnStreamReceiver.cs:54-57 | the heartbeat key is none the writers manage: with any value in it the store still meets what these results ask |
| `RedisKeys.SameNormalExactly` | EliteEvents.Eddn/Storage/RedisKeys.cs:31-37 | two names are normalized alike exactly when they agree up to case |
| `RedisKeys.QueryIsTrimmed` | EliteEvents.Eddn/Storage/RedisKeys.cs:39-40 | a query is looked up in upper case without the white space around it, and with all that is inside |
| `RedisKeys.WhiteSpaceExactly` | EliteEvents.Eddn/Storage/RedisKeys.cs:40 | white space is the 25 characters .NET trims |
| `RedisKeys.StationInjective` | EliteEvents.Eddn/Storage/RedisKeys.cs:45-46 | station keys of upper-cased systems are distinct, colons in names or not |
| `RedisKeys.SystemStationsInjective` | EliteEvents.Eddn/Storage/RedisKeys.cs:49-50 | so are the keys of station sets |
| `RedisKeys.StationIsNotSystemStations` | EliteEvents.Eddn/Storage/RedisKeys.cs:45-50 | no station key is the key of a station set |
| `RedisKeys.CarrierDailyIsNotCarrierDays` | EliteEvents.Eddn/Storage/RedisKeys.cs:59-64 | no daily carrier key is the key of a carrier's days |
| `RedisKeys.ExtractNameRoundTrip` | EliteEvents.Eddn/Storage/RedisKeys.cs:189-193 | a name is recovered from its key exactly when it has no colon |
| `RedisKeys.ExtractNameOfDetail` | EliteEvents.Eddn/Storage/RedisKeys.cs:189-193 | the key of a station or of a carrier's day yields the name it belongs to |
| `RedisKeys.LexPrefixMax` | EliteEvents.Eddn/Storage/RedisKeys.cs:135-142 | fills the bound with the prefix's UTF-8 bytes and 0xFF |
| `RedisKeys.PrefixRangeIsExact` | EliteEvents.Eddn/Storage/RedisKeys.cs:124-142 | a name's bytes lie in the prefix range exactly when the name starts with the query |
| `RedisKeys.EscapeGlob` | EliteEvents.Eddn/Storage/RedisKeys.cs:158-172 | the loop puts a backslash before every metacharacter |
| `RedisKeys.PatternMeansContains` | EliteEvents.Eddn/Storage/RedisKeys.cs:150-172 | under Redis' glob matcher the index pattern matches a name exactly when it contains the query |
| `Search.PrefixPass` | EliteEvents.Eddn/Storage/DockingReader.cs:191-209 | the first `limit` names that start with the query, in byte order, and the set of them |
| `Names.OrderMeaning` | EliteEvents.Eddn/Storage/DockingReader.cs:234 | byte order and ordinal order put the smaller byte or code unit first where two names differ, and a name before its extensions |
| `Search.SubstringPass` | EliteEvents.Eddn/Storage/DockingReader.cs:216-232 | the loop keeps what the scan order makes it keep, with the glob match replaced by containment |
| `Search.ScanPassSize` | EliteEvents.Eddn/Storage/DockingReader.cs:216-232 | for any scan order with repeats: distinct names that contain the query without starting with it, all of them or exactly 5000 |
| `Search.FillPage` | EliteEvents.Eddn/Storage/DockingReader.cs:191-236 | the two passes give the page that is defined by the hits and the scan order |
| `Search.PageIsSound` | EliteEvents.Eddn/Storage/DockingReader.cs:191-236 | every page has as many names as fit, without repeats, prefix hits first and in order, then sorted names that only contain the query |
| `Search.ExactlyWhenItFits` | EliteEvents.Eddn/Storage/DockingReader.cs:178-237 | the page is the beginning of all hits in order for every scan order if and only if the prefix hits fill it or at most 5000 other names match |
| `Search.MissingPage` | EliteEvents.Eddn/Storage/DockingReader.cs:228-231 | otherwise there is a scan order for which it is not |
| `Search.OneTooMany` | EliteEvents.Eddn/Storage/DockingReader.cs:228-231 | a concrete index of 5001 names and a scan order for which the smallest hit is missed |
| `Search.SearchIndex` | EliteEvents.Eddn/Storage/DockingReader.cs:178-237 | nothing for a blank query or a limit that is not positive; otherwise the page of the scan order, sound always and the beginning of all hits when it fits |
| `DockingReader.RecentRunMeaning` | EliteEvents.Eddn/Storage/DockingReader.cs:73 | the count is the length of the last stretch of dockings without a gap of more than thirty days |
| `DockingReader.DockedWithinMeaning` | EliteEvents.Eddn/Storage/RedisKeys.cs:21 | a station was docked at recently exactly when some docking there is at most thirty days old |
| `DockingReader.RecordKeepsAgreement` | EliteEvents.Eddn/Storage/DockingWriter.cs:72-102 | recording a docking keeps every station hash and station set in agreement with the log |
| `DockingReader.OtherKeysKeepAgreement` | EliteEvents.Eddn/Storage/DockingWriter.cs:46-121 | carrier and visit batches do not disturb that agreement |
| `DockingReader.CarrierBatchOutcome` | EliteEvents.Eddn/Storage/DockingWriter.cs:46-70 | a carrier's docking counts one more for the day, or starts the count again after an expiry, puts the day on the carrier's set, keeps both for thirty days, and changes nothing else but the index |
| `DockingReader.VisitBatchOutcome` | EliteEvents.Eddn/Storage/DockingWriter.cs:104-121 | a jump counts one more visit of the system, all of them until the end of the week |
| `DockingReader.Database.RecordStationDocking` | EliteEvents.Eddn/Storage/DockingWriter.cs:72-102 | applies the batch and extends the log, keeping the agreement |
| `DockingReader.Database.RecordFleetCarrierDocking` | EliteEvents.Eddn/Storage/DockingWriter.cs:46-70 | applies the carrier batch and keeps the agreement |
| `DockingReader.Database.RecordSystemVisit` | EliteEvents.Eddn/Storage/DockingWriter.cs:104-121 | applies the visit batch and keeps the agreement |
| `DockingReader.Database.ReadStation` | EliteEvents.Eddn/Storage/DockingReader.cs:61-76 | reads a station exactly when it was docked at within thirty days, with the log's type, count and time |
| `DockingReader.Database.GetSystemDocking` | EliteEvents.Eddn/Storage/DockingReader.cs:52-80 | exactly the stations docked at within thirty days, once each, counted since the last thirty-day gap, latest first |
| `DockingReader.ReportedUnderItsName` | EliteEvents.Eddn/Storage/DockingReader.cs:52-80 | a docking recorded under one name is reported to a reader who asks for another exactly when the two agree up to case, with its type and time |
| `SearchIndexMaintainer.DataKeyYieldsName` | EliteEvents.Eddn/Storage/SearchIndexMaintainer.cs:78-86 | the data key of a colon-free name is matched by the scan and yields the name |
| `SearchIndexMaintainer.LiveNameIsFoundExactly` | EliteEvents.Eddn/Storage/SearchIndexMaintainer.cs:78-89 | a live name is found by the scan, and so survives a lone pass, exactly when it has no colon |
| `SearchIndexMaintainer.ColonNameIsMistaken` | EliteEvents.Eddn/Storage/SearchIndexMaintainer.cs:78-86 | of a name with a colon the scan yields only what comes before it |
| `SearchIndexMaintainer.ColonExample` | EliteEvents.Eddn/Storage/SearchIndexMaintainer.cs:78-86 | the keys of the system `A:B` yield the system `A` alone |
| `SearchIndexMaintainer.NamesAreLive` | EliteEvents.Eddn/Storage/SearchIndexMaintainer.cs:78-86 | among keys that writers made from colon-free names, systems or carriers, the scan yields exactly the names whose data key exists |
| `IndexedSystems.SetOutlivesStation` | EliteEvents.Eddn/Storage/DockingWriter.cs:84-101 | no station's hash is live without its system's station set |
| `IndexedSystems.SystemDockedMeaning` | EliteEvents.Eddn/Storage/RedisKeys.cs:21 | a system was docked at recently exactly when some docking in it is at most thirty days old |
| `IndexedSystems.IndexIsTheLog` | EliteEvents.Eddn/Storage/SearchIndexMaintainer.cs:78-104 | in a database the writers made, the names a rebuild finds are exactly the systems docked at within thirty days if and only if none of those has a colon in its name |
| `SearchIndexMaintainer.ThroughoutMeaning` | EliteEvents.Eddn/Storage/SearchIndexMaintainer.cs:66-89 | the keys a rebuild must keep are those that exist at every moment of it |
| `SearchIndexMaintainer.WriteDifference` | EliteEvents.Eddn/Storage/SearchIndexMaintainer.cs:88-104 | adds what is missing and removes what is stale, in chunks, with writers running: every live name ends indexed, only stale names of the snapshot go, and they go unless a writer puts them back |
| `SearchIndexMaintainer.Rebuild` | EliteEvents.Eddn/Storage/SearchIndexMaintainer.cs:66-117 | for any writes and expiries during the snapshot, the scan and the writes: a colon-free name whose key was there throughout is indexed at the end, a name first indexed once the scan began stays, a name without a live key goes unless a writer puts it back, and no other name appears; alone, the index becomes the live names and the counts are right |
| `SearchIndexMaintainer.RebuildTwice` | EliteEvents.Eddn/Storage/SearchIndexMaintainer.cs:104-116 | with nothing else running a second pass adds and removes nothing |
| `StreamEndpoint.FormatFrame` | EliteEvents.Web/Endpoints/StreamEndpoint.cs:75-92 | the builder's loop writes the frame's lines |
| `StreamEndpoint.JoinOfSplit` | EliteEvents.Web/Endpoints/StreamEndpoint.cs:85-88 | splitting the HTML into lines loses nothing |
| `StreamEndpoint.JoinOfTrimmed` | EliteEvents.Web/Endpoints/StreamEndpoint.cs:85-88 | the lines written, joined again, are the HTML without the carriage returns that end a line, defined without splitting |
| `StreamEndpoint.CleanIsWithoutCr` | EliteEvents.Web/Endpoints/StreamEndpoint.cs:85-88 | clean HTML arrives without its carriage returns and otherwise as it is |
| `StreamEndpoint.Serve` | EliteEvents.Web/Endpoints/StreamEndpoint.cs:31-50 | the connection loop writes the greeting, then a comment or the ready frames per turn |
| `StreamEndpoint.ConnectionRoundTrip` | EliteEvents.Web/Endpoints/StreamEndpoint.cs:31-50 | parsing the whole output gives one message and one ticker event per frame, in order, exactly when every frame is clean |
| `StreamEndpoint.FrameRoundTripExactly` | EliteEvents.Web/Endpoints/StreamEndpoint.cs:75-92 | a frame is read back as its two events exactly when its text is clean |
| `LiveEventHub.EveryClientRunIsSound` | EliteEvents.Web/Services/LiveEventHub.cs:94-106 | whatever the order of writes and reads, a client's queue is a bounded stretch of the log, its reads are in publish order, and every earlier frame was either read or dropped |
| `LiveEventHub.MissedOnlyWhenBehind` | EliteEvents.Web/Services/LiveEventHub.cs:96-101 | a frame is missed only after a hundred newer unread ones |
| `LiveEventHub.RanShows` | EliteEvents.Web/Services/LiveEventHub.cs:94-106 | a client has been offered as many more frames as were written to it, keeps what it has read, and has read at most once per read |
| `LiveEventHub.EveryRunServes` | EliteEvents.Web/Services/LiveEventHub.cs:144-174 | for every order of requests, publishes and single writes: a client is gone exactly if it asked to leave, and otherwise has been written once every frame whose receivers were listed while it was connected |
| `LiveEventHub.Hub.SubscribeClient` | EliteEvents.Web/Services/LiveEventHub.cs:94-106 | adds an empty queue at the current position and touches no other |
| `LiveEventHub.Hub.Unsubscribe` | EliteEvents.Web/Services/LiveEventHub.cs:174 | removes one client and touches no other |
| `LiveEventHub.Hub.TryRead` | EliteEvents.Web/Endpoints/StreamEndpoint.cs:46-49 | yields the next frame of the log for that client and touches no other |
| `LiveEventHub.Hub.Deliver` | EliteEvents.Web/Services/LiveEventHub.cs:168-171 | writes to one client, dropping its oldest frame when full, and touches no other |
| `LiveEventHub.Hub.WriteOut` | EliteEvents.Web/Services/LiveEventHub.cs:168-171 | with requests coming in before each write, the loop over the listed clients is a stretch of the run that leaves nobody still connected unwritten |
| `LiveEventHub.Hub.Distribute` | EliteEvents.Web/Services/LiveEventHub.cs:168-171 | the latest frame is distributed and every request that came in meanwhile is handled, in order; nothing else is published |
| `LiveEventHub.Hub.OnEvent` | EliteEvents.Web/Services/LiveEventHub.cs:144-172 | a rendered frame enters the history and is written once to every client that was there and stays; a frame that cannot be rendered is written to nobody; each client reads as often as it asks meanwhile |
| `LiveEventHub.Hub.Session` | EliteEvents.Web/Services/LiveEventHub.cs:144-174 | a whole run: a client that was there and stays has been written every frame published, once and in order, and has read as often as it asked; any other client is new and joined no earlier |
| `LiveEventHub.Hub.ClientsAreSound` | EliteEvents.Web/Services/LiveEventHub.cs:144-174 | in every state of the hub every client's queue, reads and drops account for every frame since it joined |
| `LiveEventHub.Hub.RecentFrames` | EliteEvents.Web/Services/LiveEventHub.cs:109-115 | the last frames published, at most forty, newest first |
| `StreamReceiver.TruncationLosesUnderAMillisecond` | EliteEvents.Eddn/Storage/StreamHeartbeat.cs:53-71 | storing a time in milliseconds and reading it back is never later and loses less than a millisecond |
| `StreamReceiver.Receiver.RecordHeartbeat` | EliteEvents.Eddn/Storage/StreamHeartbeat.cs:42-63 | writes at most once per interval unless forced, and advances the throttle even when the write fails |
| `StreamReceiver.Receiver.SilentMeansUnhealthy` | EliteEvents.Eddn/Storage/EddnStreamHealthCheck.cs:28-57 | when the loop reconnects, the health check at that instant is unhealthy |
| `StreamReceiver.Receiver.HealthFollowsTheStream` | EliteEvents.Eddn/Storage/EddnStreamHealthCheck.cs:28-57 | while no write fails, the check is healthy only if a message came within the threshold, and it is if one came within the threshold less 5.001 s |
| `StreamReceiver.Receiver.OnFrame` | EliteEvents.Ingestion/Services/EddnStreamReceiver.cs:65-77 | every arriving frame moves the silence clock and keeps the heartbeat close behind it |
| `StreamReceiver.Receiver.OnIdle` | EliteEvents.Ingestion/Services/EddnStreamReceiver.cs:78-84 | reconnects at an instant exactly when it is past the threshold since the last message and since the last reconnect, and the health check at that instant is unhealthy |
| `StreamReceiver.Receiver.Execute` | EliteEvents.Ingestion/Services/EddnStreamReceiver.cs:50-87 | at every loop head the heartbeat is no later than the last message and, while writes succeed, trails it by less than 5 s and 1 ms; decisions to reconnect are more than the threshold apart, and at the time of each, with the key as it then stood, the check is unhealthy |
| `KeyMigration.StationsMove` | redis_key_fixer.py:13-33 | the key of a station set, in whatever case, moves to the one under the upper-cased name |
| `KeyMigration.StationMoves` | redis_key_fixer.py:13-33 | the key of a station moves to the one under the upper-cased system, the station's name as it is |
| `KeyMigration.ParsesExactly` | redis_key_fixer.py:17-29 | a key without a newline has a target exactly when it is a system's |
| `KeyMigration.NewlinesInKeys` | redis_key_fixer.py:17-29 | one newline at the end is dropped, any other makes the key an error |
| `KeyMigration.TargetIsFixed` | redis_key_fixer.py:13-33 | normalizing a parsed key twice is normalizing it once |
| `KeyMigration.RenameConserves` | redis_key_fixer.py:94-103 | renaming to a free normalized key keeps every value under its old or its normalized key |
| `KeyMigration.Migration.FindTarget` | redis_key_fixer.py:71-79 | the target of a key, or none when it does not parse |
| `KeyMigration.Migration.Move` | redis_key_fixer.py:93-110 | moves to a free target or changes nothing, whichever call fails; nothing is lost or overwritten |
| `KeyMigration.Migration.ProcessKey` | redis_key_fixer.py:68-113 | processed is migrated plus skipped plus errors after every key; `migrated` counts real moves; a dry run moves nothing |
| `KeyMigration.SteppedSettles` | redis_key_fixer.py:68-103 | a moved or blocked key stays settled while later keys are moved |
| `KeyMigration.Migration.MigratePage` | redis_key_fixer.py:68-113 | every key of a page is processed, and on a live run without failing calls is settled |
| `KeyMigration.Migration.MigrateKeys` | redis_key_fixer.py:63-117 | for any scan order with repeats every scanned key is counted and every value survives under its old or normalized key; a dry run changes nothing; a live run over every key without failing calls leaves no key whose normalized form is free |
| `KeyMigration.UncontestedHasMoved` | redis_key_fixer.py:63-117 | after a finished live run a value whose normalized key was free and wanted by no other key is there, and no longer under its old key |
| `KeyMigration.SolMoves` | redis_key_fixer.py:63-117 | a database of the stations of "Sol" alone ends with them under "SOL" |

## Left out

- Upper-casing is ASCII: `ToUpperInvariant` and Python's `upper` on other letters pass through unchanged, so a letter such as `ß`, which the two treat differently, is not modelled.
- SHA-256, the image, resources, probes and security contexts of the builders, and the Service object: the configuration stands for its digest, and the rest is constant data.
- White space around a shard label's value (`strings.TrimSpace`), and `strconv.Atoi` on signs: the controller writes bare digits.
- A pass is not a transaction with the informer cache: stale reads, leader election and two controllers at once are assumed away.
- Conflicts on an update are detected by comparing the object with the one read, so an object changed and changed back in between does not conflict.
- A rollout in progress: pods with the old and the new shard count can briefly coexist, and the one-owner claim is about settled states only.
- `feedListenerTriggers` and the watches: which events wake the controller; passes happen at any time here.
- A listener re-created under the same name while leftovers of the old one remain.
- Controller.FeedListenerReconciler.Teardown: requires that people leave the object alone and calls succeed, because an endlessly failing or conflicting API server can postpone release forever.
- Sharding.ShardingRefinesOneConsumer: leaves out the last-write-wins fields `type` and `last_seen` and the scores of non-index sets, whose values depend on the interleaving, and assumes successful writes with no expiry.
- `GetCarrierDockingAsync`, `GetSystemVisitsAsync`, the cached system count and `WeeklyExpirationCalculator`: easy readers, or arithmetic inside a library.
- Counter overflow: `int` and `long` counters are unbounded here.
- The pub/sub channel, JSON, rendering, sockets, HTTP and logging, and cancellation other than at loop heads.
- `LiveEventHub` after `StopAsync`, and two publishers at once.
- SearchIndexMaintainer.Rebuild: says nothing about a stale name whose key comes back between the scan and its removal; the next pass restores it.
- IndexedSystems.IndexIsTheLog: is about systems only; carriers have `SearchIndexMaintainer.NamesAreLive`, without a log of their dockings behind it.
- The startup retry loop of `SearchIndexMaintenanceService`: only the shard-0 gate and the periodic handoff are modelled.
- The heartbeat of several shards sharing one key: `StreamReceiver` is one shard.
- Well-formed text is a sequence of Unicode scalar values; lone surrogates are not modelled outside the message hash, which works on raw code units.
