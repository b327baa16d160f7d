# Axo endpoint: a verified model of its in-memory core

Axo endpoint is a peer-to-peer serverless node: endpoints register functions and data, elect a
leader, replicate its catalog, and run jobs in pools of worker processes or containers. This
project models the state machines of that core in Dafny and proves what they promise over whole
runs.

* **Slots** (`Ledger`, `SlotProtocol`, `Placement`, `ContainerName`). The leader's ledger says which
  endpoint owns which pool slot of a function version. `Ledger` is the ledger object. `SlotProtocol`
  is the distributed protocol around it: grants, summoned containers, teardowns, release messages
  that arrive late or twice, reaping, and a new leader that rebuilds the ledger from reports.
  `Placement` is one endpoint's container pool and the decision where a job runs. Safety holds in
  every run except where the code itself lets it fail, and those conditions are proved exact.
* **Consensus and replication** (`ConsensusTick`, `Replication`). One tick of the Bully election with
  the events it publishes, and the path of a write from the dirty tracker through the leader's state
  and a push to a follower's stores, with tombstones.
* **Data** (`Chunking`, `DataRegistry`, `DataLifecycle`, `Quota`, `Replicator`). Chunked uploads in any
  order, the one-shot completion event, streams, bucket quotas, and the rate-limited replicator.
* **Jobs** (`WorkerPool`). The process runtime: queues, dispatch, crash, timeout, cancel and sweep.
* **Fast forms against simple ones** (`LruCache`, `LfuCache`, `Metric`). LRU against recency, LFU with a
  lazily cleaned heap against counting a log, Welford and two heaps against batch formulas.
* **Walks and indexes** (`Sweeper`, `InMemoryStore`). The paginated result sweeper; the in-memory store
  with its two reverse indexes and the versions a registration assigns.

`Wrappers`, `StringOrder`, `Text` and `Cyclic` hold shared types, string order, decimal text and the
arithmetic of walking round a ring.

Objects that the source changes in place are classes. Each method is proved equal to a function of
the old state (`View()` gives the state as a value), and the theorems are about those functions.

Where a promise of the source does not hold on all inputs, the code is kept as it is, a lemma shows
an input on which it fails, and another lemma says exactly when it holds:

* A duplicate release, a slot released although its container would not stop, an endpoint reaped while
  it holds a slot, or a slot granted but not yet summoned when the leader changes, lets one slot be held
  twice; each step of the protocol is safe exactly when it is none of these
  (`SlotProtocol.StepIsSafeIff`).
* On one endpoint, a crash whose container would not stop does the same (`Placement.LossKeepsIff`), and
  a stale container that will not stop can leave a job with nowhere to go
  (`Placement.NoLocalContainerIff`).
* A swept worker loses the job it runs and those still queued on it (`WorkerPool.SweepIsExact`); the
  sweep by invocation count does pick busy workers. Cancelling a job id that is queued twice loses one
  (`WorkerPool.CancelConservesIff`).
* An evicted empty-string key stays in the cache (`LruCache.PutValidIff`, `LfuCache.Cache.Store`).
* Data is complete without a signal, and old bytes are read back as new, when a key is registered again
  without deleting it, when an abandoned stream left chunks under it, or when its chunk count is
  negative; the event history stays right exactly when each operation avoids this
  (`DataLifecycle.StepKeepsInvIff`, `DataLifecycle.FullUploadSignals`). A remembered hash verdict
  outlives the data (`DataLifecycle.StreamRoundTrip`).
* A bucket's quota holds in every run exactly when its name has no slash, no size registered in it or
  quota declared for it is negative, nothing is written into it unchecked and its quota is not replaced:
  streams, job results and replicated records are cataloged without a check, and a replicated bucket
  overwrites a declared one (`Quota.QuotaHoldsIff`).
* Replication reaches every peer exactly when no peer lacks a chunk it refuses; chunks of an irregular
  stream are refused (`Replicator.Converge`, `Replicator.StreamAcceptedIff`).
* Stored values stay reachable by id and alias exactly when no two stored keys share an index entry
  (`InMemoryStore.AlwaysReachableIff`).
* Containers of different functions can share a name (`ContainerName.NamesCollideIff`).
* The documentation of `FunctionRegistry.register` says that versions always increment. They do so
  exactly when the latest version was not deleted (`InMemoryStore.VersionsIncrementIff`); what always
  holds is that no stored version is overwritten.

## Model

| member | source | states |
|---|---|---|
| Ledger.ConcurrencyLedger.RequestSlot | axo_endpoint/core/consensus/concurrency.py:99-139 | The decision and the whole new ledger are `Request` of the old one |
| Ledger.ConcurrencyLedger.ReleaseSlot | axo_endpoint/core/consensus/concurrency.py:141-150 | Frees the slot only for its present owner, dropping an emptied version; nothing else changes |
| Ledger.ConcurrencyLedger.ReapUnknownOwners | axo_endpoint/core/consensus/concurrency.py:152-162 | After the loop exactly the grants of known owners remain |
| Ledger.ConcurrencyLedger.BeginReconciliation | axo_endpoint/core/consensus/concurrency.py:166-169 | Only readiness is cleared |
| Ledger.ConcurrencyLedger.ReconcileReports | axo_endpoint/core/consensus/concurrency.py:171-183 | Grants are rebuilt from the reports alone, cursors cleared, ready again; what that means for requests is Ledger.ReconciledNeverRetries |
| Ledger.ConcurrencyLedger.IngestPeerMetrics | axo_endpoint/core/consensus/concurrency.py:187-197 | The loop over an endpoint's gossiped pools records live and idle counts per parsed key and skips malformed ones |
| Ledger.GossipIsKnown | axo_endpoint/core/consensus/concurrency.py:187-203 | What an endpoint gossips last about a function version is what the ledger knows of it |
| Ledger.GossipIsOwn | axo_endpoint/core/consensus/concurrency.py:187-203 | It changes nothing known about other endpoints |
| Text.ParsePool | axo_endpoint/core/consensus/concurrency.py:11-28 | Parsing a gossiped pool key gives function id and version back, whatever colons the id has |
| Ledger.ConcurrencyLedger.ChooseOwner | axo_endpoint/core/consensus/concurrency.py:209-223 | The strategy's pick and the cursor it leaves, for all three strategies |
| Ledger.Choose | axo_endpoint/core/consensus/concurrency.py:209-223 | Every strategy picks a candidate and touches at most the cursor of this function version |
| Ledger.ConcurrencyLedger.SmallestUnusedIndex | axo_endpoint/core/consensus/concurrency.py:225-233 | The search loop finds the least unused index |
| Ledger.ConcurrencyLedger.FindIdle | axo_endpoint/core/consensus/concurrency.py:122-124 | The filter loop computes `IdleAmong` |
| Ledger.IdleAmong | axo_endpoint/core/consensus/concurrency.py:122-124 | Exactly the owners other than the requester that report an idle container, without repeats |
| Ledger.LeastUnusedFrom | axo_endpoint/core/consensus/concurrency.py:225-233 | The result is unused and everything below it is used |
| Ledger.LeastUnusedBound | axo_endpoint/core/consensus/concurrency.py:225-233 | Pigeonhole: the least unused index is at most the number of grants |
| Ledger.RetryIffNotReady | axo_endpoint/core/consensus/concurrency.py:99-139 | "Retry" is answered exactly while the ledger is being rebuilt |
| Ledger.PlacementKeepsGrants | axo_endpoint/core/consensus/concurrency.py:122-139 | A placement names a current owner and changes no grant |
| Ledger.GrantIsLeastUnused | axo_endpoint/core/consensus/concurrency.py:130-133 | A grant is the least unused index, below max(1, M), and adds only itself |
| Ledger.GrantOnlyWhenNoneIdle | axo_endpoint/core/consensus/concurrency.py:122-133 | Growth happens only when no other owner reports an idle container |
| Ledger.RebuiltIsReported | axo_endpoint/core/consensus/concurrency.py:171-183 | After reconcile a slot is held exactly as reported, the last report winning |
| Ledger.RunRespectsCap | axo_endpoint/core/consensus/concurrency.py:99-183 | In every run of all operations every granted index, and so the number of grants, stays within max(1, M) |
| Ledger.RequestIsLocal | axo_endpoint/core/consensus/concurrency.py:99-139 | A request leaves cursor and grants of every other function version alone |
| Ledger.PlacementsWalkTheList | axo_endpoint/core/consensus/concurrency.py:209-219 | With a fixed candidate list, successive placements walk it in cyclic order whatever other traffic intervenes, and change no grant |
| Ledger.RoundRobinIsFair | axo_endpoint/core/consensus/concurrency.py:209-219 | Any k placements pick each of n candidates floor(k/n) or ceil(k/n) times |
| Ledger.DecisionIs | axo_endpoint/core/consensus/concurrency.py:99-139 | A ready ledger grows exactly when no other owner reports an idle container and the version is below its cap; otherwise it names an idle other owner if there is one |
| Ledger.RetryChangesNothing | axo_endpoint/core/consensus/concurrency.py:99-139 | A request told to retry leaves the ledger as it was |
| Ledger.ReconciledNeverRetries | axo_endpoint/core/consensus/concurrency.py:166-183 | After a reconciliation, whatever the ledger was before, no request is told to retry, every cursor is 0 and the gossip is kept |
| Ledger.ReadinessIsLastSet | axo_endpoint/core/consensus/concurrency.py:99-197 | Over every run the ledger is ready exactly unless the last of begin and reconcile was a begin; nothing else touches readiness |
| Ledger.ReleaseIsExact | axo_endpoint/core/consensus/concurrency.py:141-150 | A release takes away exactly the slot it names, from exactly the endpoint that sends it, and leaves no version without grants |
| Ledger.ReapIsExact | axo_endpoint/core/consensus/concurrency.py:152-162 | Reaping takes away exactly the slots of unknown owners |
| Ledger.GossipKeepsOthers | axo_endpoint/core/consensus/concurrency.py:187-197 | Gossip that does not name a function version changes nothing known of it |
| Ledger.TwoChoicesPicksLessBusy | axo_endpoint/core/consensus/concurrency.py:209-223 | Of the two owners drawn the one with fewer containers at work is picked, the first if equal |
| Ledger.BusyIsAtWork | axo_endpoint/core/consensus/concurrency.py:205-207 | That number is what is live and not idle, never below zero |
| Ledger.AnyPairMayBeDrawn | axo_endpoint/core/consensus/concurrency.py:209-223 | Any ordered pair of different candidates can be drawn, and the random strategy can pick any candidate |
| SlotProtocol.ApplyKeepsInv | axo_endpoint/service/runtime/container_runtime.py:233-295 | Every careful protocol step keeps ledger and containers in agreement, containers that would not stop included |
| SlotProtocol.RunKeepsInv | axo_endpoint/core/consensus/concurrency.py:99-183 | So does every run of steps |
| SlotProtocol.ClusterIsSafe | axo_endpoint/service/container/spawner.py:165-279 | After any run of careful steps, across leader changes: every slot that is held, or whose container is still there, is in the ledger under its holder, no two share a place, at most max(1, M) per function version, pairwise distinct container names |
| SlotProtocol.StepIsSafeIff | axo_endpoint/service/runtime/container_runtime.py:639-705 | Every step of the protocol from a safe cluster is safe if and only if it is careful: no grant meets its own outstanding release, no slot is released while its container would not stop, nobody holding a slot is reaped, and a new leader hears of every slot |
| SlotProtocol.FailedStopIsReissued | axo_endpoint/service/container/spawner.py:237-246 | A slot released after a failed stop is granted to another endpoint: two containers of one slot and one name |
| SlotProtocol.HoldersWithinCap | axo_endpoint/core/consensus/concurrency.py:130-133 | The invariant bounds cluster-wide holders of a version by its cap |
| SlotProtocol.NamesDiffer | axo_endpoint/service/container/handle.py:52-75 | Two holdings of one function version have different container names |
| SlotProtocol.CarefulIsExact | axo_endpoint/core/consensus/concurrency.py:141-150 | A grant keeps the invariant if and only if its endpoint has no release of that slot under way |
| SlotProtocol.LeftoverReleaseBreaks | axo_endpoint/service/runtime/container_runtime.py:661-663 | Whenever a grant meets a leftover release of its slot, delivering it lets the next request be granted the same slot: two holdings of one slot |
| SlotProtocol.DoubleReleaseHappens | axo_endpoint/service/app.py:870-872 | A torn-down container's two releases do leave such a leftover |
| SlotProtocol.RebuiltOwns | axo_endpoint/service/app.py:835-863 | A ledger rebuilt from truthful reports owns exactly the reported slots |
| SlotProtocol.FailoverKeepsInvIff | axo_endpoint/service/app.py:835-863 | A leader change keeps the invariant if and only if the reports cover every held slot |
| SlotProtocol.ForgottenSlotIsReissued | axo_endpoint/service/app.py:835-863 | A slot granted but not yet summoned at a leader change is granted again to another endpoint |
| Placement.Endpoint.DismissAt | axo_endpoint/service/container/spawner.py:222-279 | A stopped container leaves the pool and gives its slot back; one that will not stop is only marked |
| Placement.Endpoint.TeardownAt | axo_endpoint/service/runtime/container_runtime.py:350-363 | Cancel: dismissal, then a direct release as well |
| Placement.Endpoint.HandleLossAt | axo_endpoint/service/runtime/container_runtime.py:639-663 | Crash and timeout: the same, except that a container already given up is left alone |
| Placement.Endpoint.SweepStale | axo_endpoint/service/container/spawner.py:281-294 | The loop dismisses every stale container, as `DismissStale` |
| Placement.Endpoint.FindIdle | axo_endpoint/service/container/spawner.py:138-151 | After the sweep, the first open container in pool order |
| Placement.FirstOpen | axo_endpoint/service/container/spawner.py:146-151 | None exactly when no container is open; otherwise an open one with none open before it |
| Placement.Endpoint.FindLeastBusy | axo_endpoint/service/container/spawner.py:153-163 | The search loop computes `LeastBusy` |
| Placement.LeastBusy | axo_endpoint/service/container/spawner.py:160-163 | None exactly when nothing is live; otherwise a live container of least invocations, the first such |
| Placement.Endpoint.ResolvePlacement | axo_endpoint/service/runtime/container_runtime.py:233-295 | Outcome, pool and ledger are `Resolve` of the old ones, which Placement.OutcomeIs describes |
| Placement.SweptIsLive | axo_endpoint/service/container/spawner.py:281-294 | After a sweep the only stale containers are those that would not stop |
| Placement.DismissKeepsBalanced | axo_endpoint/service/container/spawner.py:222-279 | Dismissal keeps the endpoint's ledger slots equal to its pool's indices, whether or not the stop works |
| Placement.ResolveKeepsBalanced | axo_endpoint/service/runtime/container_runtime.py:233-295 | So does placing a job, whatever stops fail on the way |
| Placement.SweepKeepsLive | axo_endpoint/service/container/spawner.py:281-294 | A sweep neither adds nor removes live containers |
| Placement.NoLocalContainerIff | axo_endpoint/service/runtime/container_runtime.py:280-288 | "No local container exists" is answered if and only if the version is at capacity, no other owner reports an idle container, the choice falls on this endpoint and none of its containers is live |
| Placement.PlacedJobFindsContainer | axo_endpoint/service/runtime/container_runtime.py:280-288 | In agreement with the ledger, that takes a stale container that would not stop |
| Placement.NoLocalContainerHappens | axo_endpoint/service/runtime/container_runtime.py:280-288 | It is answered when the only slot belongs to a crashed container that will not stop |
| Placement.TeardownKeepsIff | axo_endpoint/service/runtime/container_runtime.py:350-363 | A cancel keeps the agreement if and only if the container stops |
| Placement.LossKeepsIff | axo_endpoint/service/runtime/container_runtime.py:639-663 | A crash or timeout keeps it if and only if the container stops or was already given up |
| Placement.FailedStopDuplicates | axo_endpoint/service/container/spawner.py:237-246 | After a failed stop the freed slot is granted again and the pool holds it twice |
| Placement.PoolMatchesLedger | axo_endpoint/service/runtime/container_runtime.py:233-295 | Over every run, with anything other endpoints do, the endpoint owns exactly the slots of its containers: none leaks, none is held twice |
| Placement.OutcomeIs | axo_endpoint/service/runtime/container_runtime.py:233-295 | Reuse exactly when a container is open, then the first open one and nothing else changes; growth is a starting container, last in the pool, in a slot nobody owned; a job queues on a live container of least invocations or goes to another owner of a slot as the leader says; retry exactly when nothing is open and the ledger is not ready |
| Placement.AskedAre | axo_endpoint/core/consensus/concurrency.py:99-139 | The leader's answers: retry iff not ready, grants are of unowned slots, placements of slot owners |
| Placement.DismissIsLocal | axo_endpoint/service/container/spawner.py:222-279 | Dismissing one container leaves every other as it was; its slot is free if it stopped, and it is only marked if not |
| Placement.TeardownFrees | axo_endpoint/service/runtime/container_runtime.py:350-363 | A cancel frees the slot whether or not the container stops |
| Placement.SweepKeepsLiveOnes | axo_endpoint/service/container/spawner.py:281-294 | A sweep keeps the live containers and their order, and touches no readiness, gossip or cursor |
| ContainerName.Slice | axo_endpoint/service/container/handle.py:73-74 | Python's `s[:n]`: a prefix, of at most n characters when n is not negative |
| ContainerName.SlotOfSanitized | axo_endpoint/service/container/handle.py:67-75 | Version and pool index can be read back off every name, however long the function id |
| ContainerName.NamesDistinct | axo_endpoint/service/container/handle.py:67-75 | Names of different versions or slots differ, whatever the functions |
| ContainerName.SanitizedIsLabel | axo_endpoint/service/container/handle.py:67-75 | The name is label text with no outer dash, and within 63 octets (section 2.3.4 of RFC 1035) exactly when its suffix has at most 60 |
| ContainerName.NamesCollideIff | axo_endpoint/service/container/handle.py:67-75 | Two names are equal if and only if version, slot and what is kept of the slugs are equal |
| ContainerName.FunctionsMayCollide | axo_endpoint/service/container/handle.py:67-69 | Different function ids do share names |
| ContainerName.LongIdsCollide | axo_endpoint/service/container/handle.py:73-74 | So do all ids whose slugs agree on their first 60 characters |
| ContainerName.CleanedInOrder | axo_endpoint/service/container/handle.py:67-68 | The characters of an id turn one by one, in order, into label characters or nothing: letters to lower case, underscores to dashes, all else but digits and dashes dropped |
| ContainerName.StripIsExact | axo_endpoint/service/container/handle.py:69 | Stripping removes dashes from the two ends and nothing else |
| ContainerName.NamelessIsFn | axo_endpoint/service/container/handle.py:69 | An id that leaves nothing but dashes has the slug fn |
| ContainerName.LabelIsItsSlug | axo_endpoint/service/container/handle.py:67-69 | An id that is a label already is its own slug, so different labels have different slugs |
| ContainerName.SlugIsLabel | axo_endpoint/service/container/handle.py:67-69 | Every slug is a label, and taking it twice changes nothing |
| ContainerName.LabelsKeepApart | axo_endpoint/service/container/handle.py:67-75 | Functions whose ids are labels that fit never share a name |
| ContainerName.LabelIsNamed | axo_endpoint/service/container/handle.py:67-75 | Their containers are named by id and version, and all but the first of a pool by their slot |
| LruCache.Cache.Lookup | axo_endpoint/old/caching/__init__.py:36-40 | Answer and new cache are `Get` of the old one; a valid cache stays valid |
| LruCache.Cache.Store | axo_endpoint/old/caching/__init__.py:42-48 | For every key the new cache is `Put` of the old one, failing only with nothing to evict; a valid cache stays valid if and only if the empty string is not evicted |
| LruCache.Cache.Access | axo_endpoint/old/caching/__init__.py:58-62 | The key moves to the end of the order, the others keep theirs |
| LruCache.PutValidIff | axo_endpoint/old/caching/__init__.py:42-67 | Put keeps cache and order in step and within capacity if and only if it does not evict the empty string |
| LruCache.EmptyKeyIsTheOnlyLeak | axo_endpoint/old/caching/__init__.py:43-46 | Cache and order come apart if and only if the empty string is the oldest key and must go |
| LruCache.EmptyKeyLeaks | axo_endpoint/old/caching/__init__.py:43-46 | A second put into a cache of one that holds the empty string leaves two values |
| LruCache.NonEmptyKeysUsable | axo_endpoint/old/caching/__init__.py:42-48 | A run that never puts the empty string never evicts it |
| LruCache.CacheHoldsMostRecent | axo_endpoint/old/caching/__init__.py:36-67 | After any run that does not evict the empty string the order is exactly the `capacity` most recently used keys, in order of use |
| LruCache.Inclusion | axo_endpoint/old/caching/__init__.py:36-67 | On a common trace the smaller cache stays included in the larger: same values, recency order a subsequence; if the small one never evicts the empty string, neither does the large one |
| LruCache.InclusionFromEmpty | axo_endpoint/old/caching/__init__.py:36-67 | The same from empty caches of capacities 1 <= c <= d |
| LruCache.HitIsLastPut | axo_endpoint/old/caching/__init__.py:36-48 | After any run of any cache a get hits exactly the keys held, and a hit answers the last value put |
| LfuCache.Cache.Access | axo_endpoint/old/caching/__init__.py:76-80 | Counts, heap and index again account for the log with one access more |
| LfuCache.Cache.Evict | axo_endpoint/old/caching/__init__.py:82-88 | Popping until an entry is current returns the key plain LFU evicts; none only when nothing is counted |
| LfuCache.Cache.Lookup | axo_endpoint/old/caching/__init__.py:36-40 | As plain LFU |
| LfuCache.Cache.DropVictim | axo_endpoint/old/caching/__init__.py:43-46 | Room is made as in plain LFU; cache and frequency table keep the same keys unless the victim is the empty string, which then stays in the cache alone |
| LfuCache.Cache.Store | axo_endpoint/old/caching/__init__.py:42-48 | As plain LFU for every key and capacity; the cache stays valid if and only if the empty string is not evicted |
| LfuCache.EmptyKeyLeaks | axo_endpoint/old/caching/__init__.py:43-46 | In a cache of one the evicted empty string is forgotten by the counts but not by the cache |
| LfuCache.NonEmptyKeysUsable | axo_endpoint/old/caching/__init__.py:42-48 | A run that never puts the empty string never evicts it |
| LfuCache.HeapNamesCounted | axo_endpoint/old/caching/__init__.py:82-88 | No heap entry names an evicted key, so the pop's lookup cannot fail |
| LfuCache.AccessConsistent | axo_endpoint/old/caching/__init__.py:76-80 | An access keeps table, heap and index consistent with the log |
| LfuCache.PopConsistent | axo_endpoint/old/caching/__init__.py:82-88 | A popped minimum is either out of date and loses nothing, or is the victim and the last entry of its key |
| LfuCache.CurrentMinIsVictim | axo_endpoint/old/caching/__init__.py:82-88 | A current minimum names the key of least count, ties going to the one that reached it first |
| LfuCache.ReachedDiffers | axo_endpoint/old/caching/__init__.py:79-80 | Two cached keys never reached their counts at the same access, so ties are always broken |
| LfuCache.Cache.Simulate | axo_endpoint/old/caching/__init__.py:36-88 | Over every run of gets and puts that does not evict the empty string, answers and contents equal plain LFU's, within max(1, capacity) |
| LfuCache.HitIsLastPut | axo_endpoint/old/caching/__init__.py:36-48 | After every such run a get hits exactly the keys held, and a hit answers the last value put |
| LfuCache.PutReplaces | axo_endpoint/old/caching/__init__.py:42-48 | A put takes a key away only when the cache is full and the key is new, and then the one accessed least since it came in, among equals the one not accessed for longest |
| LfuCache.VictimIsLeastUsed | axo_endpoint/old/caching/__init__.py:82-88 | Heap order picks exactly that key |
| LfuCache.HitIsCounted | axo_endpoint/old/caching/__init__.py:36-40 | A hit counts as one more access to its key, the latest of all; a miss, and other keys, are not counted |
| LfuCache.PutIsCounted | axo_endpoint/old/caching/__init__.py:42-48 | A put counts as the latest access to its key, and what it takes away is counted afresh |
| Metric.Cell.Add | axo_endpoint/old/metrics/__init__.py:66-86 | Records the value; a window that fills is reported as the batch statistics of exactly its values and the cell is empty again |
| Metric.Cell.Current | axo_endpoint/old/metrics/__init__.py:88-115 | The snapshot is the batch statistics of the values seen, in both modes |
| Metric.Cell.WelfordUpdate | axo_endpoint/old/metrics/__init__.py:148-157 | One Welford step |
| Metric.Cell.MedianHeapsAdd | axo_endpoint/old/metrics/__init__.py:160-169 | One push and rebalancing of the two heaps |
| Metric.Cell.Reset | axo_endpoint/old/metrics/__init__.py:121-135 | Nothing is remembered |
| Metric.MakeCell | axo_endpoint/old/metrics/__init__.py:31-54 | A limit of 0 or below -1 is refused, any other gives an empty cell |
| Metric.WelfordStep | axo_endpoint/old/metrics/__init__.py:148-157 | The step keeps mean equal to sum over count and M2 to the sum of squared deviations |
| Metric.HeapsAddHalves | axo_endpoint/old/metrics/__init__.py:160-169 | Both heaps again hold the two halves of the sorted values |
| Metric.HeapsMedianIsMedian | axo_endpoint/old/metrics/__init__.py:171-177 | The heap tops give the median of the sorted values |
| Metric.SortSorts | axo_endpoint/old/metrics/__init__.py:184 | Sorting gives an ascending permutation |
| Metric.WindowSnapshot | axo_endpoint/old/metrics/__init__.py:180-196 | From the right running sum, the batch statistics of the buffer |
| Metric.Stream | axo_endpoint/old/metrics/__init__.py:66-115 | For every input the unbounded cell reports exactly the batch statistics |
| Metric.Windows | axo_endpoint/old/metrics/__init__.py:66-86 | Reported windows tile the input in blocks of exactly `limit`; what is left is shorter than a block and still pending |
| Metric.StdIsPairwise | axo_endpoint/old/metrics/__init__.py:221-229 | The deviation reported is the root of the sum of squared differences over all pairs, divided by n (n - 1); 0 for a single value |
| Metric.MedianIsMiddle | axo_endpoint/old/metrics/__init__.py:211-218 | The median is halfway between the two middle ascending values, which are one for an odd number; half of them lie on either side |
| Metric.ExtremesBound | axo_endpoint/old/metrics/__init__.py:140-146 | The ends reported are values of the batch and bound all of them |
| WorkerPool.Runtime.InvokeJob | axo_endpoint/service/runtime/process_runtime.py:215-268 | Of the function's own workers an idle one first, a new one while there is room, else the shortest queue; an unknown function with no worker fails |
| WorkerPool.FirstIdle | axo_endpoint/service/runtime/process_runtime.py:115-126 | An idle member if there is one |
| WorkerPool.LeastLoaded | axo_endpoint/service/runtime/process_runtime.py:128-137 | A member with the shortest queue |
| WorkerPool.Runtime.PumpDispatch | axo_endpoint/service/runtime/process_runtime.py:387-482 | The head of the queue becomes the worker's current job |
| WorkerPool.Runtime.PumpResult | axo_endpoint/service/runtime/process_runtime.py:387-482 | The current job is reported and cleared |
| WorkerPool.Runtime.HandleLoss | axo_endpoint/service/runtime/process_runtime.py:566-664 | Crash or timeout: evicted, drained, the current job and then the queued ones reported; nothing is reported again for a cancelled worker |
| WorkerPool.Runtime.CancelJob | axo_endpoint/service/runtime/process_runtime.py:483-564 | A running job's worker is killed and everything on it reported; a queued job is taken out of its queue |
| WorkerPool.Runtime.SweepWorker | axo_endpoint/service/runtime/process_runtime.py:345-377 | Any registered worker, idle or busy, is unregistered and left with the stop marker |
| WorkerPool.StepKeepsInv | axo_endpoint/service/runtime/process_runtime.py:215-664 | Every operation keeps jobs conserved, accepted once, and pools within their caps |
| WorkerPool.JobsAreConserved | axo_endpoint/service/runtime/process_runtime.py:215-664 | After any run every accepted job is in exactly one place (queued, in flight or reported once), no other job anywhere, and each pool within max(1, max_concurrency) |
| WorkerPool.CancelKeepsOrder | axo_endpoint/service/runtime/process_runtime.py:483-564 | Cancelling a queued job removes that one job and keeps the order of the others |
| WorkerPool.CancelConservesIff | axo_endpoint/service/runtime/process_runtime.py:483-564 | Cancelling a queued job conserves jobs if and only if it is queued there once |
| WorkerPool.ReusedIdIsLost | axo_endpoint/service/runtime/process_runtime.py:531-564 | One id submitted twice and cancelled while queued: two accepted, one reported, none left |
| WorkerPool.SweepIsExact | axo_endpoint/service/runtime/process_runtime.py:337-377 | A sweep conserves jobs if and only if the worker runs nothing and has nothing queued |
| WorkerPool.SweptJobsAreLost | axo_endpoint/service/runtime/process_runtime.py:566-606 | Otherwise exactly its dispatched job and its queued jobs disappear unreported, since the drain fails on the stop marker |
| WorkerPool.SweptJobHappens | axo_endpoint/service/runtime/process_runtime.py:89-93 | It happens to a worker's second job, while queued and while running |
| WorkerPool.InvocationIs | axo_endpoint/service/runtime/process_runtime.py:215-268 | An invocation fails, changing nothing, exactly when the function is unknown and has no worker; otherwise exactly one queue grows by the job at its end: of the version's first idle worker, of a new one if none is idle and there is room, else of the first shortest queue |
| WorkerPool.FirstIdleIsFirst | axo_endpoint/service/runtime/process_runtime.py:115-126 | The idle worker taken is the first in registration order |
| WorkerPool.LeastLoadedIsShortest | axo_endpoint/service/runtime/process_runtime.py:128-137 | The worker queued on is the first with the shortest queue |
| WorkerPool.JobsRunTheirOwnFunction | axo_endpoint/service/runtime/process_runtime.py:215-664 | Over every run each job that waits or runs is on a worker of the function it was submitted for |
| WorkerPool.DispatchIsFifo | axo_endpoint/service/runtime/process_runtime.py:387-482 | The longest-waiting job is dispatched, and nothing else changes |
| WorkerPool.ResultIsReported | axo_endpoint/service/runtime/process_runtime.py:387-482 | The job that ran is reported finished or failed as its result says, and its worker is free |
| WorkerPool.LossIsReported | axo_endpoint/service/runtime/process_runtime.py:566-664 | A crash or timeout tells its outcome to the job that ran and "crashed", in order, to those behind it; a killed or swept worker tells nothing |
| WorkerPool.CancelIsReported | axo_endpoint/service/runtime/process_runtime.py:483-564 | A cancel succeeds exactly when the job runs or waits on a registered worker; a running job is told cancelled and those behind it crashed; a waiting one is told cancelled and taken out of that queue alone |
| WorkerPool.SweepIsQuiet | axo_endpoint/service/runtime/process_runtime.py:345-377 | A sweep reports nothing and takes only that worker out of the registry |
| ConsensusTick.ConsensusLoop.RecomputeView | axo_endpoint/core/consensus/bully.py:34-42 | Leader and term are `Recompute` of the old view |
| ConsensusTick.ConsensusLoop.RunTick | axo_endpoint/service/consensus_loop.py:78-167 | New state, and the events appended in order, are `Tick` of the old state, which ConsensusTick.TickPublishes describes |
| ConsensusTick.HistoryDeterminesState | axo_endpoint/service/consensus_loop.py:82-167 | In every run from start-up the events replay without one out of place and give the present quorum, leader, term and role: losses and recoveries alternate starting with a loss, degradations fall within quorum, each election is a new leader one term up, each role change a flip |
| ConsensusTick.TermIsElectionCount | axo_endpoint/service/consensus_loop.py:136-156 | The term is the number of elections published |
| ConsensusTick.OneLeader | axo_endpoint/core/consensus/bully.py:34-42 | Nodes that see the same cluster agree on its greatest id, and only that node leads |
| ConsensusTick.NoTwoQuorums | axo_endpoint/service/consensus_loop.py:87-93 | Two disjoint parts of a cluster no larger than the high-water mark cannot both have quorum |
| ConsensusTick.TickPublishes | axo_endpoint/service/consensus_loop.py:87-167 | In every run: loss or return of quorum is published exactly when the last cluster seen and this one differ in holding a majority of the largest ever seen, with this cluster's size and the least majority; while quorum lasts one degradation names each peer of the last cluster missing from this one; an election exactly when the greatest id changes, a role change exactly when being it does; nothing twice, in that order |
| ConsensusTick.FirstTickPublishes | axo_endpoint/service/consensus_loop.py:87-167 | The first tick publishes nothing about quorum |
| ConsensusTick.StateIsHistory | axo_endpoint/service/consensus_loop.py:85-88 | A node carries along the last cluster it saw, the size of the largest and the greatest id of the last |
| ConsensusTick.QuorumIsLeastMajority | axo_endpoint/service/consensus_loop.py:89-93 | The quorum size is the least majority of the high-water mark |
| StringOrder.SortedOrder | axo_endpoint/core/consensus/concurrency.py:110 | `Sorted` is ascending in Python's string order |
| Replication.DirtyTracker.MarkFunctionDirty | axo_endpoint/core/consensus/dirty_tracker.py:33-37 | The mark overrides any earlier one for its key and no other |
| Replication.DirtyTracker.MarkDataDirty | axo_endpoint/core/consensus/dirty_tracker.py:39-43 | As for functions |
| Replication.DirtyTracker.MarkBucketDirty | axo_endpoint/core/consensus/dirty_tracker.py:45-49 | As for functions |
| Replication.DirtyTracker.MarkViewDirty | axo_endpoint/core/consensus/dirty_tracker.py:51-55 | The leader view is pending |
| Replication.DirtyTracker.IsDue | axo_endpoint/core/consensus/dirty_tracker.py:57-81 | Due exactly when something is pending and it is many enough or old enough |
| Replication.DirtyTracker.DrainAll | axo_endpoint/core/consensus/dirty_tracker.py:83-96 | Everything pending is returned and nothing stays |
| Replication.LeaderNode.ApplyMutation | axo_endpoint/core/consensus/state_machine.py:79-100 | The mutation is laid over the state, with the view if there is one |
| Replication.LeaderNode.FlushDue | axo_endpoint/service/consensus_loop.py:179-199 | What is due moves from the tracker into the leader's state; its diff is pushed unless empty |
| Replication.FollowerNode.Install | axo_endpoint/core/consensus/state_machine.py:102-115 | Only a newer version replaces the state |
| Replication.FollowerNode.Handle | axo_endpoint/service/handlers/state_sync_push.py:38-76 | A stale term is refused; otherwise the state is replaced and the stores are updated entry by entry, stopping at a key that does not parse |
| Replication.ListedIsPush | axo_endpoint/service/handlers/state_sync_push.py:57-76 | For the keys a leader sends this is the merge of whole maps, in whatever order the entries come |
| Replication.FollowerNode.MergeBuckets | axo_endpoint/core/consensus/bucket_sync.py:62-68 | The loop overlays the bucket changes |
| Replication.ApplyIncoming | axo_endpoint/core/consensus/registry_sync.py:127-152 | Every listing of changes is applied one by one, up to the first key that does not parse |
| Replication.OrderDoesNotMatter | axo_endpoint/core/consensus/data_sync.py:102-129 | Keys the bridges write all apply, and any order gives the same store |
| Replication.AbsorbMirrors | axo_endpoint/core/consensus/data_sync.py:102-129 | A store that held exactly the non-tombstone entries of a map holds those of the updated map |
| Replication.StalePushIgnored | axo_endpoint/service/handlers/state_sync_push.py:44-55 | A push is accepted exactly when its term is not older; a refused one changes nothing |
| Replication.RunKeepsInv | axo_endpoint/core/consensus/state_machine.py:79-107 | Every interleaving of writes, ticks and deliveries keeps leader, channel and follower in agreement |
| Replication.FollowerCatchesUp | axo_endpoint/service/handlers/state_sync_push.py:38-76 | Leader state under pending marks is always the last write per key; follower maps under the pushes on their way are the leader's; stores hold exactly the non-tombstone entries |
| Replication.QuietSystemConverges | axo_endpoint/service/consensus_loop.py:179-199 | After any run, one tick once writes have paused for the idle time, and delivery, bring the follower to exactly the last write per key |
| Replication.LastWriteWins | axo_endpoint/core/consensus/state_machine.py:79-100 | The last write to a target is what is kept for it, and no other target is touched |
| Replication.MarkCounts | axo_endpoint/core/consensus/dirty_tracker.py:33-64 | A write to a target already pending replaces it; any other is one more to flush |
| Replication.WritesAreDue | axo_endpoint/core/consensus/dirty_tracker.py:57-81 | After n writes to different targets a flush is due never for n = 0, always from the limit up, and otherwise once the idle time has passed |
| Replication.ViewIsDue | axo_endpoint/core/consensus/dirty_tracker.py:51-81 | A change of leader alone is flushed like one write |
| Replication.FlushIs | axo_endpoint/service/consensus_loop.py:179-199 | A due flush hands over everything pending for good: one new version with the pending values over the old ones, the pending view's leaders and term if there is one, pushed unless it is a view alone; otherwise nothing happens |
| Replication.PushIsAdopted | axo_endpoint/service/handlers/state_sync_push.py:38-76 | A push is refused, changing nothing, exactly when its term is older; otherwise its term, leaders and members become the follower's under one new version; a key that does not parse leaves the stores behind it alone |
| Replication.ListingApplies | axo_endpoint/core/consensus/registry_sync.py:127-152 | Changes apply up to the first key that does not parse |
| Replication.TermIsLargest | axo_endpoint/service/handlers/state_sync_push.py:38-56 | Whatever arrives, from however many leaders, a follower's term is the largest it was ever sent |
| Replication.OlderTermsStayRefused | axo_endpoint/service/handlers/state_sync_push.py:44-55 | Once a push of a term has arrived, any push of an older one is refused for good |
| Text.SplitCombined | axo_endpoint/core/consensus/data_sync.py:122-128 | Splitting `id:version` at its last colon gives id and version back, whatever the id |
| Chunking.TotalChunksCovers | axo_endpoint/core/data/chunking.py:15-19 | The chunk count is the least whose chunks cover all bytes |
| Chunking.TotalChunksUnique | axo_endpoint/core/data/chunking.py:15-19 | No other count is the least that covers them |
| Chunking.ExpectedLenBounds | axo_endpoint/core/data/chunking.py:22-28 | Every chunk has 1 to chunk_bytes bytes and lies inside the data |
| Chunking.LengthsAddUp | axo_endpoint/core/data/chunking.py:22-28 | The expected lengths add up to the total size |
| Chunking.JoinSlices | axo_endpoint/core/data/registry.py:287-317 | Joining the slices gives the data back |
| Chunking.ChunkKeyInjective | axo_endpoint/core/data/chunking.py:7-12 | A chunk key belongs to one name, version and index, for names with slashes and indices of any length too |
| Chunking.ChunkKeyIs | axo_endpoint/core/data/chunking.py:7-12 | A chunk key ends in at least eight digits that read as its index, with no needless zeros |
| DataRegistry.Registry.RegisterData | axo_endpoint/core/data/registry.py:87-118 | Record, events and completion mark are `Register` of the old state, for every size and chunk size; a chunk size of 0 fails when there are bytes to divide |
| DataRegistry.Registry.StoreOne | axo_endpoint/core/data/registry.py:220-253 | Refusals, a wrong length among them, change nothing; otherwise the chunk is stored and completion signalled once |
| DataRegistry.Registry.IsFullyPresent | axo_endpoint/core/data/registry.py:173-179 | True exactly when every chunk is stored |
| DataRegistry.Registry.DeleteData | axo_endpoint/core/data/registry.py:183-216 | Record, chunks, completion mark and cached hash are gone |
| DataRegistry.Registry.ReadAll | axo_endpoint/core/data/registry.py:255-285 | All chunks joined, or the first failure |
| DataRegistry.Registry.QueryStatus | axo_endpoint/core/data/registry.py:319-369 | Present indices, completeness, and the hash verdict, remembered once computed |
| DataRegistry.StatusIsExact | axo_endpoint/core/data/registry.py:319-356 | A status lists exactly the stored chunks and says complete exactly when all are stored |
| DataRegistry.Registry.Open | axo_endpoint/core/data/registry.py:371-376 | An empty stream under the key |
| DataRegistry.Registry.Append | axo_endpoint/core/data/registry.py:378-397 | The next chunk is stored; count, size and hasher advance |
| DataRegistry.Registry.Finalize | axo_endpoint/core/data/registry.py:399-423 | The record of everything appended is registered and signalled |
| DataRegistry.RegistrationIs | axo_endpoint/core/data/registry.py:87-118 | A registration is refused exactly for an unknown kind or a chunk size of 0 with bytes to divide; otherwise only this key's record changes, to one with the least chunk count that covers its bytes |
| DataRegistry.StoringIs | axo_endpoint/core/data/registry.py:220-253 | A chunk is stored exactly when its key is registered, its index in range and its length the expected one, and is then read back; each refusal names its reason and changes nothing |
| DataRegistry.DeletionIs | axo_endpoint/core/data/registry.py:183-216 | A deletion forgets the record, mark, verdict and every chunk of its key, and nothing else |
| DataRegistry.ReadingIs | axo_endpoint/core/data/registry.py:255-285 | Reading fails exactly when the key is not registered or a chunk is missing |
| DataRegistry.IncompleteStatusIs | axo_endpoint/core/data/registry.py:319-356 | An incomplete upload has no verdict, and asking changes nothing |
| DataRegistry.VerdictIs | axo_endpoint/core/data/registry.py:319-369 | The first verdict on a complete upload is the digest of the bytes that reading gives: verified exactly when the declared hash is that digest, so a differing or absent one is not verified |
| DataRegistry.AskedAgainIsSame | axo_endpoint/core/data/registry.py:319-356 | Asked again, the status is the same, whatever the hasher would say now |
| DataRegistry.OpeningIs | axo_endpoint/core/data/registry.py:371-376 | Opening starts a stream over and touches nothing stored |
| DataRegistry.AppendIs | axo_endpoint/core/data/registry.py:378-397 | An append fails, changing nothing, exactly on a closed stream or an unknown kind; otherwise the next chunk is stored and no record, mark or verdict changes |
| DataRegistry.FinalizingIs | axo_endpoint/core/data/registry.py:399-423 | A stream is finalized once and is closed for appending after |
| DataLifecycle.StoreKeepsInv | axo_endpoint/core/data/registry.py:220-253 | Storing a chunk always keeps log and completion marks right |
| DataLifecycle.DeleteKeepsInv | axo_endpoint/core/data/registry.py:183-216 | So does deletion |
| DataLifecycle.AppendKeepsInvIff | axo_endpoint/core/data/registry.py:378-397 | Appending to a stream does if and only if the chunk is not the last one missing of a record registered under the same key |
| DataLifecycle.FinalizeKeepsInvIff | axo_endpoint/core/data/registry.py:399-423 | Finalizing a stream does if and only if the key is absent and everything appended is still stored |
| DataLifecycle.StepKeepsInvIff | axo_endpoint/core/data/registry.py:87-423 | Each of register, store, delete, open, append and finalize keeps log and marks right if and only if it is careful |
| DataLifecycle.CompletionSignal | axo_endpoint/core/data/registry.py:112-423 | In every careful run of all six operations each key's events read: registered, at most once completed, deleted; "completed" stands exactly while all chunks are present, so it fires once per registration, on the step that makes it so |
| DataLifecycle.RegisterMarksIff | axo_endpoint/core/data/registry.py:97-118 | From any state a registration leaves the completion mark right if and only if it needs no chunk, or finds all it needs stored if the key was marked and some missing if not |
| DataLifecycle.RegisterKeepsInvIff | axo_endpoint/core/data/registry.py:97-118 | Registering keeps log and marks right if and only if the key is absent and needs no chunk or finds one missing |
| DataLifecycle.AbsentKeyCarefulIff | axo_endpoint/core/data/chunking.py:15-19 | With no chunk left over that means a chunk count that is not negative |
| DataLifecycle.StepKeepsOrphanFree | axo_endpoint/core/data/registry.py:183-253 | Careful registrations, stored chunks and deletions leave no chunk without a record |
| DataLifecycle.AbandonedStreamIsRead | axo_endpoint/core/data/registry.py:378-397 | Registering a key whose stream was given up is complete at once, unsignalled, and reads the stream's bytes |
| DataLifecycle.NegativeChunkSizeIsSilent | axo_endpoint/core/data/chunking.py:15-19 | One byte in chunks of -1: fully present from the start and not signalled |
| DataLifecycle.ReRegisterMarksIff | axo_endpoint/core/data/registry.py:97-118 | After registering a present key again its completion mark is right if and only if: no chunk is needed; or the old upload was complete, of the same kind and with at least as many chunks; or it was not and some needed chunk is missing |
| DataLifecycle.ReRegisterOrphansIff | axo_endpoint/core/data/registry.py:108-118 | It orphans no chunk if and only if every stored chunk is one the new record names; over a complete upload, if there were none or the kind is the same and the count no smaller |
| DataLifecycle.FullUploadSignals | axo_endpoint/core/data/registry.py:162-253 | From any state, a registration and full upload is signalled exactly once if the key was not marked completed, and never if it was |
| DataLifecycle.SecondUploadIsSilent | axo_endpoint/core/data/registry.py:162-171 | After a complete upload, registering again reads the old bytes back at once and the full second upload is not signalled |
| DataLifecycle.UploadRoundTrip | axo_endpoint/core/data/registry.py:220-285 | From any state, slices stored in any order with repeats are complete exactly when every index was stored or left over; all stored, reading gives the original bytes, and it fails exactly while some index is neither |
| DataLifecycle.StreamRoundTrip | axo_endpoint/core/data/registry.py:371-423 | After open, appends and finalize, contents and size are those of the appended bytes and the declared hash verifies, unless a verdict for the key is still cached |
| DataLifecycle.StaleVerdictIsReported | axo_endpoint/core/data/registry.py:319-369 | Asking the status of an earlier registration makes the stream written over it count as not verified |
| DataLifecycle.RegularStreamMatchesRegister | axo_endpoint/core/data/registry.py:236-244 | A stream has the count `register` computes and every chunk passes the size check if and only if all chunks are full but the last, which has 1..chunk_bytes |
| DataLifecycle.SizesGiveCount | axo_endpoint/core/data/registry.py:236-244 | Chunks that each have the expected size are as many as expected |
| Quota.SumUsed | axo_endpoint/service/handlers/data_register.py:132-157 | The loop computes the summed size of the bucket's records |
| Quota.RegisterHandler.AddBucket | axo_endpoint/core/data/bucket_registry.py:24-40 | A declared quota is never changed |
| Quota.RegisterHandler.AddData | axo_endpoint/service/handlers/data_register.py:72-96 | A namespaced registration is checked against its bucket, then against the known kinds, then recorded |
| Quota.RegisterHandler.AddUnchecked | axo_endpoint/core/consensus/data_sync.py:122-129 | A finalized stream, a job result or a replicated record is cataloged with no check |
| Quota.RegisterHandler.ApplyBucket | axo_endpoint/core/consensus/bucket_sync.py:62-68 | A replicated bucket overwrites the quota |
| Quota.RegisterHandler.RemoveData | axo_endpoint/core/data/registry.py:183-216 | The record is gone, or was not there |
| Quota.PrefixIsBucket | axo_endpoint/service/handlers/data_register.py:132-157 | For slash-free bucket names the prefix test used in the sum and the split used to find the bucket agree |
| Quota.TotalTakes | axo_endpoint/service/handlers/data_register.py:132-157 | The sum does not depend on the order of the catalog |
| Quota.QuotaIsSafe | axo_endpoint/service/handlers/data_register.py:72-157 | In every run, re-registrations included, a bucket without a slash in its name stays within its quota, whatever other buckets are called |
| Quota.QuotaHoldsIff | axo_endpoint/service/handlers/data_register.py:72-157 | A bucket's quota holds in every run on given terms if and only if its name has no slash, no negative size in it or quota for it is admitted, and neither unchecked writes into it nor a replaced quota are |
| Quota.SlashedBucketIsUnchecked | axo_endpoint/service/handlers/data_register.py:140-148 | A run from the empty store that takes any bucket with a slash in its name past its quota |
| Quota.UncheckedWriteBreaks | axo_endpoint/core/data/registry.py:287-317 | A run in which an unchecked write takes any bucket past its quota |
| Quota.ReplacedQuotaBreaks | axo_endpoint/core/consensus/bucket_sync.py:62-68 | A run in which a replicated quota falls below what is registered |
| Quota.NegativeSizeBreaks | axo_endpoint/service/handlers/data_register.py:147-148 | A run in which deleting a record of negative size takes a bucket past its quota |
| Quota.NegativeQuotaBreaks | axo_endpoint/core/data/bucket_registry.py:24-40 | A negative quota is exceeded as soon as it is declared |
| Quota.RegistrationIs | axo_endpoint/service/handlers/data_register.py:72-157 | A namespaced registration is admitted exactly when its bucket is declared and has room beside all registered, an older record of the same key included; what is used afterwards no longer counts that one; a refusal names its reason and changes nothing |
| Quota.DeclaredOnce | axo_endpoint/core/data/bucket_registry.py:24-40 | A second declaration is refused and the first quota stays |
| Quota.DeletionIs | axo_endpoint/core/data/registry.py:183-216 | A deletion takes exactly its record's size off what the bucket uses, once |
| Replicator.PushMissing | axo_endpoint/service/blob_replication.py:149-159 | Pushes the chunks the peer lacks in index order, each while the budget is not spent and none left out before it is; the bytes sent are theirs, and the peer gains exactly the pushed chunks of the size it expects |
| Replicator.SyncPeer | axo_endpoint/service/blob_replication.py:117-159 | Exactly a recently complete peer is skipped, which is safe; any other is queried, its answer and the time noted, and topped up |
| Replicator.RunTick | axo_endpoint/service/blob_replication.py:92-159 | Only missing chunks of leader-complete enabled datasets are pushed, at most budget plus one chunk in all; without a rate limit nothing stays missing but what is refused; with any budget and no chunk to be refused the missing total strictly falls or is already zero |
| Replicator.Converge | axo_endpoint/service/blob_replication.py:92-159 | As many ticks as chunks are missing leave nothing missing if and only if no member lacks a chunk it would refuse |
| Replicator.RefusedStaysMissing | axo_endpoint/core/data/registry.py:236-244 | A refused chunk that a member lacks stays missing however often it is pushed |
| Replicator.StreamAcceptedIff | axo_endpoint/core/data/registry.py:236-244 | Every chunk of a streamed dataset is accepted if and only if the stream was regular |
| Replicator.AllDelivered | axo_endpoint/service/blob_replication.py:92-159 | Zero missing means every member holds every chunk of every eligible dataset |
| Replicator.MissingFalls | axo_endpoint/service/blob_replication.py:149-159 | A gain an eligible dataset needs lowers the total |
| Replicator.AcceptsIsStored | axo_endpoint/core/data/registry.py:220-253 | A peer that has the dataset's record accepts a chunk exactly when its registry stores it |
| Sweeper.ConsistencySweeper.RequestPriorityCheck | axo_endpoint/core/consensus/result_consistency.py:93-96 | Queued once |
| Sweeper.ConsistencySweeper.RunStep | axo_endpoint/core/consensus/result_consistency.py:139-151 | Re-verifies priority ids and the next page, and moves the cursor past it |
| Sweeper.ConsistencySweeper.MaybeRunPeriodic | axo_endpoint/core/consensus/result_consistency.py:98-112 | Runs one step exactly when idle and due; otherwise nothing changes |
| Sweeper.ConsistencySweeper.ManualPass | axo_endpoint/core/consensus/result_consistency.py:114-137 | Runs the steps of a pass unless a sync is under way |
| Sweeper.BatchesWalk | axo_endpoint/core/consensus/result_consistency.py:139-151 | k pages are one cyclic walk over the id list |
| Sweeper.PagesAreFair | axo_endpoint/core/consensus/result_consistency.py:139-151 | Over any k steps every id is paged floor or ceil of its share, so counts differ by at most one |
| Sweeper.StepsCoverAll | axo_endpoint/core/consensus/result_consistency.py:139-151 | Any ceil(n/c) or more consecutive steps re-verify every id |
| Sweeper.ManualPassCoversAll | axo_endpoint/core/consensus/result_consistency.py:129-137 | A pass of n/c + 1 steps re-verifies every id |
| Sweeper.PriorityIsNext | axo_endpoint/core/consensus/result_consistency.py:93-151 | A requested id is among the next step's targets, which name nothing twice and nothing uncalled for |
| Sweeper.PrioritiesComeFirst | axo_endpoint/core/consensus/result_consistency.py:139-151 | A step re-verifies the queued ids in the order queued and then the rest of its page |
| Sweeper.RequestsQueue | axo_endpoint/core/consensus/result_consistency.py:93-96 | Requests queue up in the order they first come in |
| Sweeper.RequestsAreServedOnce | axo_endpoint/core/consensus/result_consistency.py:93-151 | What is asked for between two steps comes first and once in the next, and the step after that goes on with its page alone |
| InMemoryStore.Backend.PutValue | axo_endpoint/core/storage/in_memory.py:20-27 | Table and indexes are `Put` of the old ones |
| InMemoryStore.Backend.DeleteValue | axo_endpoint/core/storage/in_memory.py:43-50 | Table and indexes are `Delete` of the old ones |
| InMemoryStore.Backend.Newest | axo_endpoint/core/storage/in_memory.py:58-64 | The scan finds a key of the largest version under the id or alias, none only if there is none |
| InMemoryStore.Backend.Get | axo_endpoint/core/storage/in_memory.py:29-82 | In any store what is answered is what `Finds` describes; where there is a plain (id, version) table it is that table's answer, the largest version when none is named |
| InMemoryStore.FoundIsNamed | axo_endpoint/core/storage/in_memory.py:29-82 | In any store a lookup answers the value of a key with the asked-for alias, or id if no alias is given, and version, the newest if none is given; it answers nothing only if there is none or it is out of reach |
| InMemoryStore.NeverDangling | axo_endpoint/core/storage/in_memory.py:20-50 | In every run with any keys, no reverse index points at a missing key |
| InMemoryStore.IndexesAgree | axo_endpoint/core/storage/in_memory.py:20-82 | With alias equal to id, table and both indexes are one plain (id, version) table in every run |
| InMemoryStore.StepReachableIff | axo_endpoint/core/storage/in_memory.py:20-50 | A put or delete leaves every stored value reachable by id and alias if and only if no other stored key shares its version and its id or alias |
| InMemoryStore.AlwaysReachableIff | axo_endpoint/core/storage/in_memory.py:20-50 | So over every run from the empty store, at all times |
| InMemoryStore.SharedIdLosesEntry | axo_endpoint/core/storage/in_memory.py:43-50 | Deleting one of two keys with the same id and version makes the other unreachable |
| InMemoryStore.Backend.RegisterFunction | axo_endpoint/core/functions/registry.py:49-67 | The version is one above the largest stored, so nothing stored is overwritten |
| InMemoryStore.VersionsIncrementIff | axo_endpoint/core/functions/registry.py:42-53 | A registration exceeds every version ever assigned if and only if the latest was not deleted |
| InMemoryStore.DeletedVersionIsReassigned | axo_endpoint/core/functions/registry.py:42-53 | Register, delete, register assigns the same version twice |

## Left out

- Transport, heartbeats, Docker and Swarm, processes, logging, configuration, the HTTP services and the user interface: they appear only as steps that may or may not happen.
- JSON, base64, cloudpickle and hashing internals: payloads are opaque values, a hash is an arbitrary function of the bytes fed to it.
- Floating point: times, rates and statistics are real numbers, so rounding, infinities and NaN are not covered.
- Locks and thread interleavings inside one method: each public operation is one step.
- Ledger.ConcurrencyLedger.ChooseOwner: the random strategies take their draw as a parameter; which candidates can be drawn is proved, not how evenly.
- Ledger.ConcurrencyLedger.IngestPeerMetrics: version text is a sign and decimal digits; the spaces, underscores and plus signs that `int` also takes count as malformed.
- SlotProtocol.ClusterIsSafe: for careful runs; that every guard is needed is SlotProtocol.StepIsSafeIff. Reports are collected in one step, and a deposed leader grants nothing more.
- SlotProtocol.NamesDiffer: versions are not negative, as the registries assign them; different functions may collide, as shown.
- Placement.PoolMatchesLedger: one function version at a time (pools of different versions are separate), ledger calls answered at once, and no rebuild of the ledger in between.
- Placement.Endpoint.ResolvePlacement: the branch for a failed summon is absent because `summon_at` never fails; how a forwarded job fares at its target is not modelled.
- The container runtime's own job queues and retries, readiness polling, and `ContainerSummoner.summon`, whose local index choice the ledger-driven path replaces.
- LruCache.Inclusion: for runs that do not evict the empty string (any run that never puts it is one), and capacities of at least 1; the effect of evicting it is stated by the exactness lemmas.
- LfuCache.Cache.Simulate: for runs that do not evict the empty string, as for LRU; the binary heap is a set popped at its minimum, since all entries differ.
- Metric.Cell.Current: the square root is an arbitrary function, the same in streaming and batch form; heaps are kept as ascending sequences.
- Metric collectors keyed by name: lookups around one cell.
- WorkerPool.JobsAreConserved: job ids are not reused, a killed worker sends nothing more, and only idle workers are swept; the last is exact and reuse is covered by the cancel lemmas. `list_handles` goes in registration order rather than pool by pool.
- ConsensusTick.ConsensusLoop.RunTick: degraded events come in sorted order where the source uses set order; the flush at the end of the tick is Replication.LeaderNode.FlushDue.
- Replication.FollowerCatchesUp: one leader's reign, pushes delivered in order and none lost; `STATE_SYNC_PULL`, the follower's own tracker (marked again by a tombstone) and chunk bytes removed with a tombstone are not covered.
- Replication.ApplyIncoming: `int` is modelled on a sign and decimal digits only; deserialization does not fail.
- DataRegistry.Registry.RegisterData: a record's format and creation time, and storage failures, are not carried.
- DataLifecycle.CompletionSignal: for careful runs, which is exact. Records that a node learns by replication, which come without a registered event, are not steps of these runs.
- Quota.RegisterHandler.AddData: missing fields, refused before the quota is looked at, are not shown.
- Replicator.RunTick: peers answer and keep chunks, and the catalog does not change; lengths stand for chunk contents, and latency bookkeeping is left out.
- Sweeper.StepsCoverAll: for a fixed list of distinct ids, as the consistency store's dictionary gives; `push_with_retry` and the consistency states are left out as field updates.
- InMemoryStore.Backend.RegisterFunction: the record's own fields, state transitions and updates in place are left out, as they put under an existing key.
- `CachedMetadataStore`, filesystem paths, event forwarding bridges and the command line: nothing about them needs more than reading the code.
