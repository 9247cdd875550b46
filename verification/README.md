# A verified model of the expert cache and streaming runtime

The repository streams Mixture-of-Experts weights into a small device memory: an oracle
predicts which experts a layer will need, a prefetcher queues their copies, and a cache
decides what to evict. Most of what the code promises shows only over whole runs. This
project models four parts of it in Dafny and proves such run-level properties.

1. **Arena, byte cache, prefetcher and engine** (`dee.cpp/src/vram_cache.cpp`,
   `async_prefetcher.cpp`, `engine.cpp`, `oracle.cpp`). Files `Arena*`, `CacheSpec`, `CacheCounters`,
   `VramCache`, `Eviction*`, `UniformCache`, `Fragmentation`, `PrefetchSpec`,
   `AsyncPrefetcher`, `Stale*`, `Tickets`, `LazyEager`, `Engine*`, `Rank*`, `TopK`.
   The main question is whether compute can read another expert's bytes although
   evictions reassign regions that still have copies queued.
2. **Slot cache and mock device** (`vram_cache_manager.cpp`, `cuda_backend_mock.cpp`).
   Files `Slot*`, `MockDevice*`: inclusion between caches of different size, LRU, and the
   stream/event protocol.
3. **Look-ahead cache and GPU slot table** (`modal_step3_cache_manager.py`,
   `modal_step4_triton_kernel.py`). Files `LookAhead*`, `Window*`, `Log*`,
   `Simulation`, `Gpu*`.
4. **JSON and safetensors reader** (`json_min.cpp`, `weight_mmap.cpp`, with the writer in
   `dee.cpp/tests/gen_synthetic_shard.py`). Files `Json*`, `Decimals`, `Safetensors*`,
   `TensorResolver`, `WeightMmap`. The JSON documents follow sections 2 to 7 of RFC 8259.

`dafny verify dfyconfig.toml` checks the whole project.

## Main theorems

| result | member | exact boundary |
|---|---|---|
| no stale weights, over every run | `StaleWeights.NoStaleWeights` | `StaleLimits.HitKeepsSettledIff`, `HitKeepsBytesIff`, `DirectMissShowsIff`, `WaitSettlesIff`, `ReadyMeansResidentIff` |
| lazy copying refines eager copying | `LazyEager.RunRefines` | `LazyEager.ResetRefinesIff`, `EngineResets.EngineResetsLossless` |
| what a layer computes | `EngineSpec.RunOutputs` | `RankProtection.RunSkips` |
| which predicted rank is resident at compute time | `RankProtection.RunProtects` | `RankProtection.RunRankLostIff`, `RankTies.MayLoseRankIff`, `MustLoseRankIff` |
| the arena tiles | `ArenaSpec.RunTiles` | `ArenaSpec.AllocFailsIff`, `AllocKeepsTilesIff` |
| one block size: a plain cache of C entries | `UniformCache.RunRefinesPlain`, `RunNeverFails`, `RunCounts` | `Fragmentation.EnsureSucceedsIff`, `ClearedEnsureIff` |
| eviction order | `Eviction.VictimsScoreLowest`, `VictimsUnique` | `Eviction.ScoreAgreesExactly`, `EvictionLimits.HighEvictedFirstIff` |
| more slots never lose a hit | `SlotInclusion.Inclusion` | |
| the slot cache is LRU | `SlotLru.CachedIsLru` | |
| slots partition, victim unique | `SlotCacheSpec.RunInv`, `LowestUnique` | |
| tickets and slots told to callers | `Tickets.RunTickets`, `SlotAnswers.ToldApart` | `Tickets.PrefetchAnswers`, `SlotAnswers.AcquireAnswers` |
| streams and events | `MockDeviceSpec.RunFollowsTrace`, `SyncEqualsImmediate` | |
| the look-ahead window | `WindowGuarantee.Guarantee` | `WindowLimits.GuaranteeIff` |
| log and conservation | `LogConservation.RunLog`, `LogTallies.RunTally`, `GpuTallies.RunLoads`, `CacheCounters.RunShows` | `LogConservation.DeltaOneConservesIff` |
| GPU slot table in lockstep, misses | `GpuMisses.RunMisses` | an if-and-only-if itself |
| JSON round trip | `JsonRoundTrip.RoundTrip` | `JsonAccepts.AcceptsIff`, `JsonErrors.FailedParseIff` |
| safetensors round trip, no expert mistaken for another | `SafetensorsRoundTrip.WrittenLookup`, `TensorResolver.ResolvesProjections` | `SafetensorsRoundTrip.ReadsItselfIff`, `OpensIff` |

## How the model is built

- Each stateful component is a class whose methods update its fields and loop as the
  source does. Each method is proved to take the state from one value to another by a
  specification function; the theorems are then proved about those functions and about
  runs (sequences of states linked by operations).
- Where the source scans a hash map, set or dict, the order is left open: the victims
  are an explicit argument, constrained only to be possible for some order, and every
  theorem holds for all of them. Ghost out-parameters of the methods name the choice made.
- A block whose `resident` flag is false is never left in the map, so the flag is not
  modelled: mapped means resident.
- A null source pointer is an absent source. Such a transfer is never done.
- `size_t` wrap-around is modelled in the arena's bump test, in the header length test and
  in the stored tensor offsets.
- `StaleWeights.NoStaleWeights` assumes what the engine guarantees: a source has the
  length given for it, a copy queued on a hit stays in the arena and clear of the other
  blocks, and on a miss the high-water mark plus the size does not wrap around
  (`Fragmentation.EnsureKeepsInvIff`, `WrappingRequestSucceeds`). It says nothing about an expert
  whose block was reserved by a direct `ensure` or `sync_fallback` miss since its last prefetch.
  For those, `StaleLimits` has the runs in which the wait shows the wrong bytes, or the right
  ones which a later drain destroys, and for every state exactly which bytes the wait shows
  (`DirectMissShowsIff`) and when the block is settled on them (`WaitSettlesIff`, `ShownStays`).
- The look-ahead guarantee assumes distinct predictions, which top-K selection gives.

## Where code and comments disagree

The model follows the code.

- `dee.cpp/src/engine.cpp:92` says `wait` guarantees residency. It does not
  (`StaleLimits.ReadyDoesNotMeanResident`; exactly when, `ReadyMeansResidentIff`). A
  prediction is lost when the next available one misses in a full cache in which every
  other block scores more (`RankProtection.RunRankLostIff`); it is then skipped and counted
  (`RankProtection.RunSkips`).
- `dee.cpp/src/vram_cache.cpp:131-132` speaks of allocating over budget; the code returns
  false. It also takes a failure to mean a size above the budget. There are two more causes:
  the free bytes are split between live blocks (`Fragmentation.MixedSizesCanFail`), or between
  the two sides of the high-water mark, since a hole that ends there never rejoins the bump
  region, so that even an empty cache can refuse a request within its budget
  (`Fragmentation.EmptyCacheRefuses`). `Fragmentation.EnsureSucceedsIff` says exactly when a
  request succeeds.
- `dee.cpp/design.md:86` evicts by `(tick, oracle_priority)`; the code's score puts priority
  first, and mixes the two once the tick passes 2^20 (`Eviction.ScoreAgreesExactly`,
  `EvictionLimits.HighEvictedFirstIff`).
- The comment in `modal_step3_cache_manager.py:98-100` says `prefetch` loads even a resident
  expert; the code loads exactly the absent ones (`LogConservation.PrefetchLoadsIff`,
  `PrefetchTwiceLoadsOnce`).
- `dee.cpp/include/dee/json_min.h:39` says a failed parse yields Null; it does exactly if the
  text does not open with a brace or a bracket (`JsonErrors.FailedParseIff`,
  `FailedParseKeepsPart`).

## Model

| member | source | states |
|---|---|---|
| `StaleWeights.NoStaleWeights` | dee.cpp/src/async_prefetcher.cpp:74-131 | In every run of prefetch, wait, synchronize_all, reset and of ensure, sync_fallback, touch and clear called directly on the cache: once `wait(k)` has reported ready with k resident, and no direct miss re-reserved k since its last prefetch, its block holds the bytes that prefetch named and keeps them while k stays resident, until k is prefetched or re-reserved; old queued copies into reassigned regions and direct calls for other experts cannot disturb it |
| `StaleWeights.RunInv` | dee.cpp/src/async_prefetcher.cpp:74-141 | The cache and queue invariant holds in every reachable state for every order the hash map may choose victims in, with no claim about the experts a direct miss reserved since their last prefetch |
| `StaleWeights.StepInv` | dee.cpp/src/async_prefetcher.cpp:74-141 | Each operation keeps the invariant, and says which experts it takes out of or back into its care |
| `StaleWeights.WaitSettles` | dee.cpp/src/async_prefetcher.cpp:102-131 | Ready, resident and not directly reserved: after the wait the block holds its latest source and no pending copy touches it |
| `StaleWeights.WaitReadyIff` | dee.cpp/src/async_prefetcher.cpp:113-131 | `wait` reports ready if and only if a copy with a non-null source was queued for the expert since the last reset |
| `StaleWeights.StepKeepsSettled` | dee.cpp/src/async_prefetcher.cpp:74-141 | No operation other than another prefetch of k disturbs the bytes of a settled k; it can only be evicted |
| `StaleWeights.StepKeepsAbsent` | dee.cpp/src/vram_cache.cpp:118-148 | Only a prefetch of k or a direct miss makes k resident |
| `StaleWeights.RunTraced` | dee.cpp/src/async_prefetcher.cpp:74-101 | The latest queued source of a resident expert is the source of its last prefetch in the trace |
| `Tickets.PrefetchAnswers` | dee.cpp/src/async_prefetcher.cpp:74-101 | A prefetch answers a ticket exactly if the expert is resident afterwards, and then has queued one copy for it; it answers the failure code exactly if queue and index are unchanged |
| `Tickets.RunTickets` | dee.cpp/src/async_prefetcher.cpp:74-101 | In every run from a fresh prefetcher, resets included, the ticket of a prefetch is the number of copies issued before it |
| `Tickets.TicketsDiffer` | dee.cpp/src/async_prefetcher.cpp:74-101 | No two prefetches of a run get the same ticket |
| `Tickets.RunCounters` | dee.cpp/src/async_prefetcher.cpp:74-131 | In every run the issue counter is the number of copies issued, the wait counter the number of waits, and the fallback counter the number of waits for experts nobody staged since the last reset |
| `Tickets.RunStaged` | dee.cpp/src/async_prefetcher.cpp:33-72 | In every run an expert is found in the index exactly if a copy for it was issued since the last reset |
| `StaleLimits.ReadyDoesNotMeanResident` | dee.cpp/src/async_prefetcher.cpp:113-131 | Concrete run: `wait` reports ready for an expert that was evicted |
| `StaleLimits.ReadyMeansResidentIff` | dee.cpp/src/async_prefetcher.cpp:113-131 | Ready implies resident exactly for experts that are resident already or have no non-null source queued |
| `StaleLimits.DirectEnsureServesStaleBytes` | dee.cpp/src/async_prefetcher.cpp:113-131 | Concrete run: `ensure` called outside `prefetch` lets `wait` report ready over the bytes of another expert |
| `StaleLimits.DirectEnsureLosesBytesLater` | dee.cpp/src/async_prefetcher.cpp:102-141 | Concrete run: reserved directly while its copy is pending, an expert is shown right by the wait, and the next drain overwrites it while it stays resident |
| `StaleLimits.WaitShowsIff` | dee.cpp/src/async_prefetcher.cpp:102-131 | What a ready wait shows at any place, in every state: what was there if the latest copy of the expert is done, and otherwise that copy where it reaches and what the earlier pending copies leave elsewhere |
| `StaleLimits.DirectMissShowsIff` | dee.cpp/src/async_prefetcher.cpp:113-131 | For every direct miss on an expert with a source queued: the wait reports ready, and the new block shows given bytes exactly under that condition, whether the last copy is done or pending |
| `StaleLimits.WaitSettlesIff` | dee.cpp/src/async_prefetcher.cpp:102-131 | For every resident expert, directly reserved or not: after a ready wait the block is settled on given bytes exactly if it shows them, they fit, and no later pending copy overlaps the block |
| `StaleLimits.ShownStays` | dee.cpp/src/async_prefetcher.cpp:74-141 | In every run, bytes shown by a ready wait with no later pending copy over the block are still there at every later step at which the expert is resident, until it is prefetched or reserved again |
| `StaleLimits.LongerHitOverruns` | dee.cpp/src/vram_cache.cpp:118-127 | Concrete run: a hit ignores its size argument, so a longer copy overwrites the settled block of a neighbour |
| `StaleLimits.HitKeepsSettledIff` | dee.cpp/src/vram_cache.cpp:118-127 | A hit of any size keeps a settled expert settled exactly if the copy range is disjoint from its block |
| `StaleLimits.HitKeepsBytesIff` | dee.cpp/src/async_prefetcher.cpp:102-131 | Once waited for, such a copy leaves the bytes of a settled expert intact exactly if it agrees with them where the two overlap |
| `LazyEager.RunRefines` | dee.cpp/src/async_prefetcher.cpp:74-141 | Between resets, applying the pending copies to the lazy memory gives exactly the memory and cache of a prefetcher that copies at issue time |
| `LazyEager.StepRefines` | dee.cpp/src/async_prefetcher.cpp:74-141 | Every operation but reset commutes with that abstraction |
| `LazyEager.ResetRefinesIff` | dee.cpp/src/async_prefetcher.cpp:33-41 | A reset refines the eager prefetcher, whatever the arena holds, exactly if no queued transfer is pending with a non-empty source that fits the arena |
| `LazyEager.ResetDropsCopy` | dee.cpp/src/async_prefetcher.cpp:33-41 | Concrete run: a prefetch and a reset leave the expert resident without its bytes |
| `EngineResets.EngineRunDrains` | dee.cpp/src/engine.cpp:77-98 | In every run of the engine, no copy is pending between layer calls: the last prediction staged is waited for |
| `EngineResets.EngineResetsLossless` | dee.cpp/src/engine.cpp:211-237 | So a reset between any two calls loses no byte and the lazy engine stays equal to an eager one |
| `LazyEager.SyncMakesEqual` | dee.cpp/src/async_prefetcher.cpp:133-141 | After synchronize_all the lazy and the eager memory are equal |
| `LazyEager.RunDonePrefix` | dee.cpp/src/async_prefetcher.cpp:102-111 | In every run a transfer is done only if every earlier one with a source is done |
| `LazyEager.DrainTwice` | dee.cpp/src/async_prefetcher.cpp:102-111 | Draining to n and then to m is draining once to the larger of the two |
| `PrefetchSpec.PackInjective` | dee.cpp/src/async_prefetcher.cpp:67-72 | The packed index key separates all (layer, expert) pairs, negative ones included |
| `PrefetchSpec.DrainKeeps` | dee.cpp/src/async_prefetcher.cpp:102-111 | A range that no pending copy touches keeps its bytes through a drain |
| `PrefetchSpec.DrainFills` | dee.cpp/src/async_prefetcher.cpp:102-111 | The last pending copy into a range decides its bytes, also when the copy is longer than the range |
| `PrefetchSpec.DrainFilled` | dee.cpp/src/async_prefetcher.cpp:102-131 | After a drain that covers the latest transfer of a resident expert, its block holds that source |
| `PrefetchSpec.DrainInv` | dee.cpp/src/async_prefetcher.cpp:102-111 | Draining any prefix keeps the queue invariant |
| `PrefetchSpec.EnqueueInv` | dee.cpp/src/async_prefetcher.cpp:74-101 | Queueing a copy into the block of a resident expert keeps the queue invariant |
| `AsyncPrefetchers.AsyncPrefetcher.Prefetch` | dee.cpp/src/async_prefetcher.cpp:74-101 | The in-place method does exactly the specified prefetch, including the failed reservation, with a possible choice of victims |
| `AsyncPrefetchers.AsyncPrefetcher.DrainUntil` | dee.cpp/src/async_prefetcher.cpp:102-111 | The copying loop leaves the queue and memory of draining the first n transfers in order |
| `AsyncPrefetchers.AsyncPrefetcher.Wait` | dee.cpp/src/async_prefetcher.cpp:113-131 | New state and answer of the specified wait |
| `AsyncPrefetchers.AsyncPrefetcher.SynchronizeAll` | dee.cpp/src/async_prefetcher.cpp:133-141 | New state of draining the whole queue |
| `AsyncPrefetchers.AsyncPrefetcher.Reset` | dee.cpp/src/async_prefetcher.cpp:33-41 | Queue and index emptied, cache and memory untouched |
| `EngineSpec.LayerOutput` | dee.cpp/src/engine.cpp:77-98 | forward_layer accumulates, in rank order, the contribution of exactly the predicted experts resident after staging, each computed from its true blob, counts one fallback per skipped expert, waits once per prediction, and leaves the staged cache with the used experts touched in rank order |
| `EngineSpec.RunOutputs` | dee.cpp/src/engine.cpp:77-98 | The same for every layer call of every run from a fresh engine: the clock grows by the predictions not skipped, each used expert ends with the tick of its own use, and priorities and all other blocks stay as staged |
| `EngineSpec.UsesAscend` | dee.cpp/src/engine.cpp:88-98 | The last uses a layer leaves lie after staging and increase strictly with rank |
| `EngineSpec.ComputeToUses` | dee.cpp/src/engine.cpp:88-98 | Computing the first n ranks is n waits and one use of each resident expert, in order |
| `EngineSpec.RunResets` | dee.cpp/src/engine.cpp:237 | In every run a reset between calls empties queue and index and changes nothing else |
| `EngineSpec.ReadsTrueBlob` | dee.cpp/src/engine.cpp:88-98 | The bytes read after waiting for a resident staged expert are that expert's blob |
| `EngineSpec.EngineRunInv` | dee.cpp/src/engine.cpp:71-98 | The engine invariant holds in every reachable state |
| `EngineSpec.StageToInv` | dee.cpp/src/engine.cpp:71-87 | Staging any prefix of the predictions keeps the invariant and the budget |
| `Engines.Engine.StageExpert` | dee.cpp/src/engine.cpp:71-75 | Stages one expert as a prefetch, or does nothing when its tensors are missing |
| `Engines.Engine.StageAll` | dee.cpp/src/engine.cpp:82-86 | The first loop stages every prediction in rank order, priority falling with rank |
| `Engines.Engine.UseExpert` | dee.cpp/src/engine.cpp:88-98 | Waits, then accumulates from the resident block or counts a fallback |
| `Engines.Engine.ForwardLayer` | dee.cpp/src/engine.cpp:77-98 | Both loops together have exactly the specified effect on cache, queue, memory, accumulator and fallback counter |
| `Engines.Engine.PredictAndForward` | dee.cpp/src/engine.cpp:77-98 | forward_layer from the logits on: the experts used are a top-K selection and the effect is that of the layer call on them, or nothing when none is selected |
| `RankProtection.RunProtects` | dee.cpp/src/engine.cpp:77-98 | With room for two blobs, distinct predictions and topk < 2^20, the rank-0 expert and the last available prediction are both resident at compute time, in every layer call of every run, whatever other layers left behind |
| `RankProtection.RankLostIff` | dee.cpp/src/engine.cpp:82-87 | For every rank: an available prediction is resident once staged, and is lost by compute time exactly if the next available prediction, when staged, misses, finds all entries taken and evicts it |
| `RankProtection.RunRankLostIff` | dee.cpp/src/engine.cpp:77-98 | The same in every layer call of every run, read off the cache right after the rank is staged: lost exactly if the next available prediction is not resident, all C entries are taken and every other entry scores strictly more, unless scores tie; and none tie while the clock is at most 2^20 |
| `RankTies.MayLoseRankIff` | dee.cpp/src/engine.cpp:82-87 | Ties included, read off the cache right after rank r is staged: some map order loses rank r exactly if a later prediction is available, the first of them misses in a full cache, and no block scores less than rank r |
| `RankTies.MustLoseRankIff` | dee.cpp/src/engine.cpp:82-87 | ... and every map order loses it exactly if every other block scores strictly more |
| `RankTies.MayDisplaceIff` | dee.cpp/src/vram_cache.cpp:96-116 | One eviction: some order displaces the block exactly if the request misses in a full cache and nothing scores less |
| `RankTies.MustDisplaceIff` | dee.cpp/src/vram_cache.cpp:96-116 | One eviction: every order displaces it exactly if the request misses in a full cache and everything else scores strictly more |
| `RankProtection.DisplacesIff` | dee.cpp/src/vram_cache.cpp:96-116 | The guard of the eviction: lost only if no entry scores less, always if every other one scores strictly more, and the two coincide without a tie |
| `RankProtection.RunSkips` | dee.cpp/src/engine.cpp:88-98 | In every layer call of every run exactly the dropped ranks are not resident, and the fallback counter grows by their number |
| `RankProtection.RankZeroKept` | dee.cpp/src/vram_cache.cpp:96-116 | With room for two blobs the next prediction never displaces rank 0 |
| `RankProtection.PlainLosesIff` | dee.cpp/src/vram_cache.cpp:96-148 | A request loses another entry exactly if it misses, all entries are taken and the entry is the victim |
| `RankProtection.ShieldStep` | dee.cpp/src/vram_cache.cpp:96-148 | While an entry of lower priority is resident beside it, a recently staged prediction is not evicted, and each further rank shields it again |
| `RankProtection.StagePlain` | dee.cpp/src/engine.cpp:71-75 | Staging an available expert succeeds and acts as one request to the plain fixed-size cache |
| `RankProtection.PredictionsProtected` | dee.cpp/src/oracle.cpp:62-72 | Rank protection for whatever predict returns on any logits: the highest-scoring expert, if available, is resident when the layer computes |
| `ArenaSpec.RunTiles` | dee.cpp/src/vram_cache.cpp:28-78 | After every legal sequence of allocations and frees, live blocks and holes tile [0, high) without overlap, holes are sorted and never adjacent, high <= capacity, and used is the sum of the live sizes |
| `ArenaSpec.AllocTiles` | dee.cpp/src/vram_cache.cpp:28-52 | alloc fails with the arena unchanged, or returns a block disjoint from every live one and keeps the tiling |
| `ArenaSpec.FreeTiles` | dee.cpp/src/vram_cache.cpp:54-63 | Freeing a live block keeps the tiling and subtracts exactly its bytes |
| `ArenaSpec.FreeNothing` | dee.cpp/src/vram_cache.cpp:54-55 | Freeing zero bytes or the failure code of alloc changes nothing |
| `ArenaSpec.AllocFailsIff` | dee.cpp/src/vram_cache.cpp:28-52 | alloc fails exactly if the size is zero, or it does not fit above the high-water mark and no run of that many consecutive bytes below it is free of live blocks |
| `ArenaSpec.WindowInHole` | dee.cpp/src/vram_cache.cpp:65-78 | Consecutive free bytes always lie in a single hole: what coalescing achieves |
| `ArenaSpec.AllocTakesLowest` | dee.cpp/src/vram_cache.cpp:30-50 | The block comes from the lowest hole that can take it; the bump pointer moves only when none can |
| `ArenaSpec.AllocBumps` | dee.cpp/src/vram_cache.cpp:45-50 | If no hole can take it, the block starts at the high-water mark, which moves to its end, and the holes stay |
| `ArenaSpec.AllocTilesIffNoWrap` | dee.cpp/src/vram_cache.cpp:45-50 | A bump allocation keeps the tiling if and only if high + bytes does not wrap around 2^64 |
| `ArenaSpec.AllocKeepsTilesIff` | dee.cpp/src/vram_cache.cpp:28-52 | A successful allocation keeps the tiling exactly if high + bytes does not wrap, or the bytes are found below the high-water mark |
| `ArenaSpec.CoalesceCells` | dee.cpp/src/vram_cache.cpp:65-78 | Coalescing changes no byte's free status |
| `ArenaSpec.CoalesceSum` | dee.cpp/src/vram_cache.cpp:65-78 | Coalescing keeps the number of free bytes |
| `ArenaSpec.EmptyIsOneHole` | dee.cpp/src/vram_cache.cpp:54-78 | With nothing live there is at most one hole and it spans everything ever handed out |
| `Arenas.Arena.Alloc` | dee.cpp/src/vram_cache.cpp:28-52 | In-place alloc, new state and result |
| `Arenas.Arena.Free` | dee.cpp/src/vram_cache.cpp:54-63 | In-place free, new state |
| `Arenas.Arena.MergeNeighbours` | dee.cpp/src/vram_cache.cpp:65-78 | The merging loop computes the coalesced list |
| `CacheSpec.CacheRunInv` | dee.cpp/src/vram_cache.cpp:96-183 | In every run of ensure, touch, sync_fallback and clear, the blocks tile the arena, are disjoint, and their use ticks are distinct |
| `CacheSpec.EnsureInv` | dee.cpp/src/vram_cache.cpp:118-148 | ensure keeps that invariant, whatever it evicts |
| `CacheSpec.EnsureFrame` | dee.cpp/src/vram_cache.cpp:118-148 | ensure succeeds if and only if the expert ends up resident, moves no other block, ignores the size on a hit, and makes the expert the most recent with the given priority |
| `CacheSpec.CacheStepFrame` | dee.cpp/src/vram_cache.cpp:118-183 | No cache call moves a block, and none makes an expert resident but the one it reserves for |
| `CacheSpec.TouchMostRecent` | dee.cpp/src/vram_cache.cpp:150-153 | touch makes a resident expert strictly the most recent and changes nothing else |
| `CacheSpec.ClearInv` | dee.cpp/src/vram_cache.cpp:176-183 | clear keeps the invariant |
| `CacheSpec.EvictAllInv` | dee.cpp/src/vram_cache.cpp:96-116 | Evictions keep the invariant and leave each survivor where it was |
| `CacheCounters.EnsureCounts` | dee.cpp/src/vram_cache.cpp:118-148 | ensure counts one request, and one hit or, if it succeeds on a miss, one load; blocks there before plus loaded are there after or evicted; a failure leaves the clock alone |
| `CacheCounters.FallbackIsRequest` | dee.cpp/src/vram_cache.cpp:170-174 | sync_fallback does nothing for a resident expert; for another it is counted and is then exactly ensure |
| `CacheCounters.TouchCounts` | dee.cpp/src/vram_cache.cpp:150-153 | touch counts nothing and advances the clock exactly for a resident expert |
| `CacheCounters.ClearKeeps` | dee.cpp/src/vram_cache.cpp:176-183 | clear keeps counters, capacity and high-water mark, restarts the clock, and frees the whole budget |
| `CacheCounters.RunShows` | dee.cpp/src/vram_cache.cpp:96-183 | In every run, any sizes, with clears: requests, hits, loads and fallbacks are those that happened, and loads = resident + evicted + cleared |
| `VramCache.VramCacheManager.FindVictim` | dee.cpp/src/vram_cache.cpp:99-106 | The scan finds a block of lowest score, whatever order it visits the map in |
| `VramCache.VramCacheManager.EvictUntilFree` | dee.cpp/src/vram_cache.cpp:96-116 | The loop terminates and evicts a sequence of lowest-score blocks until enough bytes are free or nothing is left |
| `VramCache.VramCacheManager.Ensure` | dee.cpp/src/vram_cache.cpp:118-148 | In-place ensure, new state and answer |
| `VramCache.VramCacheManager.Touch` | dee.cpp/src/vram_cache.cpp:150-153 | In-place touch, new state |
| `VramCache.VramCacheManager.SyncFallback` | dee.cpp/src/vram_cache.cpp:170-174 | In-place fallback: counted, then ensured |
| `VramCache.VramCacheManager.Clear` | dee.cpp/src/vram_cache.cpp:176-183 | Freeing the blocks in any map order gives one and the same state |
| `Eviction.VictimsScoreLowest` | dee.cpp/src/vram_cache.cpp:96-116 | Every block evicted scores no more than every survivor |
| `Eviction.VictimsStopEarly` | dee.cpp/src/vram_cache.cpp:96-98 | Before each eviction too few bytes were free; afterwards enough are, or nothing is left |
| `Eviction.VictimsAreBlocks` | dee.cpp/src/vram_cache.cpp:96-116 | Victims were resident and the survivors are exactly the other blocks, unchanged |
| `Eviction.VictimsCounted` | dee.cpp/src/vram_cache.cpp:96-116 | Each eviction removes one block and is counted once |
| `Eviction.ScoreIsLexicographic` | dee.cpp/include/dee/vram_cache.h:147-153 | Up to tick 2^20 score order is exactly (priority, recency) order |
| `Eviction.ScoreAgreesExactly` | dee.cpp/include/dee/vram_cache.h:147-153 | The two orders agree on all blocks if and only if tick <= 2^20 |
| `EvictionLimits.HighEvictedFirstIff` | dee.cpp/include/dee/vram_cache.h:147-153 | A reachable cache in which, after n touches of the lower-priority block, the higher-priority one may be evicted first, exactly when the clock has passed 2^20 |
| `Eviction.VictimUnique` | dee.cpp/src/vram_cache.cpp:99-106 | Up to tick 2^20 the victim is unique |
| `Eviction.VictimsUnique` | dee.cpp/src/vram_cache.cpp:96-116 | Up to tick 2^20 the whole eviction sequence is independent of the hash-map order |
| `UniformCache.EnsureRefinesPlain` | dee.cpp/src/vram_cache.cpp:28-148 | With one block size b and C = floor(budget / b) >= 1, ensure never fails, evicts at most one block, and acts on the abstraction as a plain cache of C entries |
| `UniformCache.RunNeverFails` | dee.cpp/src/vram_cache.cpp:96-183 | In every run over one block size, clears included, no request fails, none evicts more than one block, and at most C blocks are resident |
| `UniformCache.RunRefinesPlain` | dee.cpp/src/vram_cache.cpp:28-183 | In every run over one block size, with touch, fallback and clear, the cache is the run of a plain cache of C entries: same entries, ticks, priorities and counters, every eviction one the plain cache could make |
| `UniformCache.StepRefinesPlain` | dee.cpp/src/vram_cache.cpp:118-183 | The same for one operation |
| `UniformCache.RunCounts` | dee.cpp/src/vram_cache.cpp:118-148 | In every such run without clear, loads = resident + evicted and evictions = max(0, loads - C) |
| `Fragmentation.EnsureSucceedsIff` | dee.cpp/src/vram_cache.cpp:96-134 | For any sizes: ensure succeeds exactly if it hits, or the size is positive and fits above the high-water mark or in a window between the blocks that survive the eviction it causes |
| `Fragmentation.EnsureKeepsInvIff` | dee.cpp/src/vram_cache.cpp:118-148 | A successful miss keeps the cache sound exactly if high + n does not wrap around 2^64, or the request fits between the survivors of the eviction |
| `Fragmentation.WrappingRequestSucceeds` | dee.cpp/src/vram_cache.cpp:45-50 | Concrete run: after one byte of two was in use, a request for 2^64 - 1 bytes succeeds with a block that leaves the arena |
| `Fragmentation.EmptyEnsureIff` | dee.cpp/src/vram_cache.cpp:118-134 | An empty cache takes exactly the sizes that fit on one side of its high-water mark |
| `Fragmentation.ClearedEnsureIff` | dee.cpp/src/vram_cache.cpp:118-183 | The same after clear, although the whole budget is free |
| `Fragmentation.EmptyCacheRefuses` | dee.cpp/src/vram_cache.cpp:118-183 | Concrete run: a cleared cache with three free bytes refuses a three-byte request |
| `Fragmentation.MixedSizesCanFail` | dee.cpp/src/vram_cache.cpp:96-134 | Concrete run: with mixed sizes enough bytes are free in total after evicting, yet ensure fails |
| `Fragmentation.OversizedFails` | dee.cpp/src/vram_cache.cpp:128-136 | A request above the budget empties the cache and still fails |
| `UniformCache.FullIff` | dee.cpp/src/vram_cache.cpp:96-98 | Fewer than b bytes are free if and only if all C entries are taken |
| `UniformCache.VictimsUniform` | dee.cpp/src/vram_cache.cpp:96-116 | Making room evicts one block when full and none otherwise |
| `UniformCache.AllocSucceeds` | dee.cpp/src/vram_cache.cpp:28-52 | With a free entry, first fit or the bump region always has room |
| `UniformCache.PlainEnsureCounted` | dee.cpp/src/vram_cache.cpp:118-148 | The plain cache conserves loads = entries + evictions |
| `SlotInclusion.Inclusion` | dee.cpp/src/vram_cache_manager.cpp:29-96 | For any trace of acquires and touches and any fixed priority function, the experts cached with n slots are among those cached with m >= n slots, and the number of acquires that answer a hit does not fall |
| `SlotInclusion.RunWithin` | dee.cpp/src/vram_cache_manager.cpp:29-96 | Inclusion and matching recency order are kept from any related pair of states |
| `SlotInclusion.StepWithin` | dee.cpp/src/vram_cache_manager.cpp:49-96 | One operation keeps the relation |
| `SlotInclusion.AcquireWithin` | dee.cpp/src/vram_cache_manager.cpp:49-76 | Acquiring in both caches keeps the relation |
| `SlotInclusion.VictimShared` | dee.cpp/src/vram_cache_manager.cpp:29-47 | If the victim of the large cache is in the small one, it is the victim there too |
| `SlotInclusion.HitsIff` | dee.cpp/src/vram_cache_manager.cpp:49-60 | An acquire answers a hit exactly for a cached expert of allowed size |
| `SlotLru.CachedIsLru` | dee.cpp/src/vram_cache_manager.cpp:29-96 | With equal priorities an expert is cached if and only if it was accessed and fewer than num_slots distinct experts were accessed since |
| `SlotLru.CachedCount` | dee.cpp/src/vram_cache_manager.cpp:29-96 | The cached set has min(num_slots, distinct accessed) members |
| `SlotLru.RunRecency` | dee.cpp/src/vram_cache_manager.cpp:29-96 | Use times follow the access trace and everything not cached is older than everything cached |
| `SlotLru.RecencyMeansLru` | dee.cpp/src/vram_cache_manager.cpp:29-47 | That state property is equivalent to the LRU characterization |
| `SlotCacheSpec.RunInv` | dee.cpp/src/vram_cache_manager.cpp:10-96 | In every reachable state free list and cached slots partition 0..num_slots-1 and use times are distinct and at most the clock |
| `SlotCacheSpec.NewInv` | dee.cpp/src/vram_cache_manager.cpp:10-19 | The constructed cache meets the invariant |
| `SlotCacheSpec.AcquireInv` | dee.cpp/src/vram_cache_manager.cpp:49-76 | acquire keeps the invariant, refuses exactly oversized experts, and otherwise leaves the expert cached |
| `SlotCacheSpec.LowestUnique` | dee.cpp/src/vram_cache_manager.cpp:29-47 | The lexicographic victim is unique |
| `SlotCacheSpec.Victim` | dee.cpp/src/vram_cache_manager.cpp:29-47 | Some expert is lowest by priority, then by last use |
| `SlotAnswers.AcquireAnswers` | dee.cpp/src/vram_cache_manager.cpp:49-76 | acquire refuses exactly oversized experts, changing nothing; otherwise it answers the slot that now holds the expert, and hit exactly if it was cached; the expert is the one used last and the others are as before |
| `SlotAnswers.ToldApart` | dee.cpp/src/vram_cache_manager.cpp:49-76 | In every run two experts cached at the same time were told different slots, both within the arena |
| `SlotAnswers.HoldsWhatWasTold` | dee.cpp/src/vram_cache_manager.cpp:49-76 | In every run whoever is cached sits in the slot its last acquire was told |
| `SlotAnswers.NextSlot` | dee.cpp/src/vram_cache_manager.cpp:10-76 | Until the cache is full, each new expert is told the next slot, from 0 up |
| `SlotAnswers.HitKeeps` | dee.cpp/src/vram_cache_manager.cpp:54-59 | A hit keeps slot, size and priority, and evicts nobody |
| `SlotAnswers.MissTakesFree` | dee.cpp/src/vram_cache_manager.cpp:61-75 | A miss with a free slot takes it, evicts nobody, and records size and priority |
| `SlotAnswers.MissEvictsLowest` | dee.cpp/src/vram_cache_manager.cpp:29-76 | A miss in a full cache takes over the slot of a lowest expert, which leaves and is remembered as last evicted |
| `SlotAnswers.NewIff` | dee.cpp/src/vram_cache_manager.cpp:10-19 | Construction succeeds exactly for a positive number of slots of positive size, and starts empty with all slots free |
| `SlotTables.Occupy` | dee.cpp/src/vram_cache_manager.cpp:61-63 | Taking a free slot keeps free and used slots a partition |
| `SlotTables.Release` | modal_step4_triton_kernel.py:248-255 | Giving a slot back keeps free and used slots a partition |
| `SlotCaches.VramSlotCache.Create` | dee.cpp/src/vram_cache_manager.cpp:10-19 | Construction fails exactly for no slots or zero bytes |
| `SlotCaches.VramSlotCache.FindVictim` | dee.cpp/src/vram_cache_manager.cpp:29-42 | The scan finds the unique victim in any map order |
| `SlotCaches.VramSlotCache.EvictVictim` | dee.cpp/src/vram_cache_manager.cpp:29-47 | In-place eviction: new state and the slot handed over |
| `SlotCaches.VramSlotCache.Acquire` | dee.cpp/src/vram_cache_manager.cpp:49-76 | In-place acquire, new state and outcome |
| `SlotCaches.VramSlotCache.Touch` | dee.cpp/src/vram_cache_manager.cpp:93-96 | In-place touch, new state |
| `MockDeviceSpec.RunFollowsTrace` | dee.cpp/src/cuda_backend_mock.cpp:65-93 | After any operations on any number of streams: each stream has run exactly the copies its synchronizations reached and holds the rest, each event marks the stream and count of its last record, and memory holds what ran in the order it ran |
| `MockDeviceSpec.DrainRan` | dee.cpp/src/cuda_backend_mock.cpp:71-80 | Draining to a mark runs all copies issued before the record and none after |
| `MockDeviceSpec.SyncStep` | dee.cpp/src/cuda_backend_mock.cpp:71-93 | A synchronization runs, of one stream only, the copies issued before its mark that have not run, and leaves every other stream as it was |
| `MockDeviceSpec.PendingConsecutive` | dee.cpp/src/cuda_backend_mock.cpp:82-85 | Pending sequence numbers of each stream are the consecutive run ending at its next_seq |
| `MockDeviceSpec.SyncEqualsImmediate` | dee.cpp/src/cuda_backend_mock.cpp:65-93 | If no byte is written by two streams, any interleaving in which every stream ends up synchronized leaves the memory of immediate copying in program order |
| `MockDeviceSpec.OneStreamSync` | dee.cpp/src/cuda_backend_mock.cpp:65-93 | On a single stream, with any overlaps, a final stream_synchronize leaves the memory of immediate in-order copying |
| `MockDevices.MockCudaDevice.EventRecord` | dee.cpp/src/cuda_backend_mock.cpp:65-70 | The event takes the stream and its next sequence number |
| `MockDevices.MockCudaDevice.EventSynchronize` | dee.cpp/src/cuda_backend_mock.cpp:71-80 | The loop drains the recorded stream below the watermark; an unrecorded event does nothing |
| `MockDevices.MockCudaDevice.MemcpyAsync` | dee.cpp/src/cuda_backend_mock.cpp:82-85 | The copy is queued and no byte moves |
| `MockDevices.MockCudaDevice.StreamSynchronize` | dee.cpp/src/cuda_backend_mock.cpp:89-93 | All pending copies run in order |
| `WindowGuarantee.Guarantee` | modal_step3_cache_manager.py:90-175 | After set_lookahead_ranked(p) and prefetch_delta(p), for any distinct p and over every later sequence of requests, the first min(len(p), capacity - 1, top_k_pred + 1) predictions are never absent and requests for them hit; so none of p is lost if len(p) < capacity and only the lowest-ranked can be if len(p) = capacity, up to width top_k_pred + 1 |
| `WindowLimits.GuaranteeIff` | modal_step3_cache_manager.py:90-175 | The guarantee is exact: rank i is resident at the end of every window if and only if i is below that bound; every later rank is lost in some window from an empty cache |
| `WindowGuarantee.DeltaResident` | modal_step3_cache_manager.py:111-128 | prefetch_delta leaves all of p resident |
| `WindowGuarantee.WindowOpens` | modal_step3_cache_manager.py:90-128 | Predicting and delta-prefetching makes every safe rank resident, and all of p if it fits |
| `WindowGuarantee.DeltaKeepsReach` | modal_step3_cache_manager.py:111-128 | Delta prefetch loads every missing safe rank and loses none, however many are predicted |
| `WindowGuarantee.RequestKeepsWindow` | modal_step3_cache_manager.py:130-146 | One request for any expert keeps the window invariant and hits if guaranteed |
| `WindowGuarantee.ServeKeepsWindow` | modal_step3_cache_manager.py:130-175 | Every sequence of requests keeps it |
| `WindowLimits.TooWideLosesPrediction` | modal_step3_cache_manager.py:148-175 | Concrete run: with two predictions at top_k_pred = 0, a request evicts a prediction and keeps an unpredicted expert |
| `LookAheadSpec.PredictedOutrankIff` | modal_step3_cache_manager.py:164-172 | All predictions outrank unpredicted experts if and only if len(p) <= top_k_pred + 1 |
| `LookAheadSpec.UnpredictedFirst` | modal_step3_cache_manager.py:148-175 | While an unpredicted expert is resident, the victim is unpredicted and the least recent of those |
| `LookAheadSpec.LowestRankFirst` | modal_step3_cache_manager.py:148-175 | Among predictions only, the lowest-ranked is evicted |
| `LookAheadSpec.RanksOf` | modal_step3_cache_manager.py:90-96 | Each prediction is ranked by its position |
| `LookAheadSpec.RequestEffect` | modal_step3_cache_manager.py:130-146 | A request leaves its expert resident and freshly used, touches no other use time, and loses at most the victim on a full miss |
| `LogConservation.RunLog` | modal_step3_cache_manager.py:75-175 | In every run, repeated predictions included, replaying async_ops gives vram exactly, loads = len(vram) + evictions + repeated loads, and len(vram) <= max(1, capacity) |
| `LogConservation.RunConserved` | modal_step3_cache_manager.py:75-175 | With distinct predictions nothing is loaded twice and loads = len(vram) + evictions |
| `LogConservation.PrefetchLoadsIff` | modal_step3_cache_manager.py:98-109 | prefetch loads an expert exactly if it is not resident; a resident one keeps vram and load counts and is only counted and refreshed |
| `LogConservation.PrefetchTwiceLoadsOnce` | modal_step3_cache_manager.py:98-109 | Concrete run: two prefetches of one expert load it once |
| `LogConservation.DeltaOneConservesIff` | modal_step3_cache_manager.py:119-127 | One delta load conserves the count if and only if the expert is not already resident after making room |
| `LogConservation.RepeatedPredictionMiscounts` | modal_step3_cache_manager.py:118-127 | Concrete input: a repeated prediction is counted as two loads |
| `LogTallies.RequestAnswers` | modal_step3_cache_manager.py:130-146 | request_expert answers true exactly for a resident expert, and then only refreshes it; a miss makes room, counts one load, and logs the eviction and then the fetch |
| `LogTallies.PrefetchDoes` | modal_step3_cache_manager.py:98-109 | prefetch, field by field: clock, use time, counts and log entries under the given token |
| `LogTallies.DeltaOneDoes` | modal_step3_cache_manager.py:119-127 | One delta round, field by field |
| `LogTallies.EvictDoes` | modal_step3_cache_manager.py:148-175 | evict removes its victim and logs it under the token, and changes nothing else |
| `LogTallies.MissingInOrder` | modal_step3_cache_manager.py:118-119 | The missing predictions are taken in the order of the prediction |
| `LogTallies.RunTally` | modal_step3_cache_manager.py:75-175 | In every run, for every expert: load count = evictions of it + one if resident + repeated loads; prefetch count = its prefetch entries in the log; and the clock counts the calls |
| `LogTallies.RequestFetches` | modal_step3_cache_manager.py:130-146 | A request answers true exactly for a resident expert and logs a fetch exactly if it answers false |
| `LookAheads.ExpertCache.SetLookaheadRanked` | modal_step3_cache_manager.py:90-96 | In-place ranking |
| `LookAheads.ExpertCache.Prefetch` | modal_step3_cache_manager.py:98-109 | In-place prefetch, new state |
| `LookAheads.ExpertCache.PrefetchDelta` | modal_step3_cache_manager.py:111-128 | The loop loads exactly the predictions missing at the start, in order |
| `LookAheads.ExpertCache.DeltaOne` | modal_step3_cache_manager.py:119-127 | One round of that loop |
| `LookAheads.ExpertCache.RequestExpert` | modal_step3_cache_manager.py:130-146 | In-place request, new state and hit flag |
| `LookAheads.ExpertCache.Evict` | modal_step3_cache_manager.py:148-175 | Removes a resident expert of lowest keep-score, or nothing when empty |
| `LookAheads.ExpertCache.Reserve` | modal_step3_cache_manager.py:103-104 | Evicts one expert when at capacity |
| `Simulation.Serve` | modal_step3_cache_manager.py:253-260 | Serving a window makes exactly the demanded requests in order; the misses equal the fetches the log gains, and each is of an expert outside the safe ranks |
| `Simulation.Replay` | modal_step3_cache_manager.py:242-260 | The token loop, for distinct predictions of any width, keeps the cache within capacity and accounts for every demand; the misses equal the fetches the log gains and are at most the demands outside the safe ranks |
| `GpuMisses.RunMisses` | modal_step4_triton_kernel.py:271-299 | In every run the table stays in lockstep, and the total of misses is zero if and only if top_k_pred <= capacity or no token was served |
| `GpuMisses.TokenMisses` | modal_step4_triton_kernel.py:271-299 | One token has no miss if and only if top_k_pred <= capacity |
| `GpuMisses.PhaseLoads` | modal_step4_triton_kernel.py:280-287 | Loading the missing predictions loses no prediction |
| `GpuMisses.PhaseMisses` | modal_step4_triton_kernel.py:294-299 | Serving a distinct expert absent at the start of the phase is a miss |
| `GpuSlotsSpec.EnsureLockstep` | modal_step4_triton_kernel.py:240-269 | ensure_resident keeps slot table, free slots, pool and cache in lockstep; a full miss evicts exactly one expert and the inner prefetch never evicts a second |
| `GpuSlotsSpec.PhaseLockstep` | modal_step4_triton_kernel.py:280-299 | Any prefix of a loading or serving phase keeps lockstep |
| `GpuSlotsSpec.StartLockstep` | modal_step4_triton_kernel.py:224-229 | The initial table is in lockstep |
| `GpuSlotsSpec.FreeSlotLockstep` | modal_step4_triton_kernel.py:248-255 | Evicting and returning its slot keeps lockstep |
| `GpuSlotsSpec.FillSlotLockstep` | modal_step4_triton_kernel.py:258-269 | Filling a free slot keeps lockstep |
| `GpuTallies.MissDoes` | modal_step4_triton_kernel.py:240-269 | A miss takes the first free slot, or the victim's; writes the expert's weights there and nowhere else, changes the table for the two of them only, and logs under its token |
| `GpuTallies.PhaseLogged` | modal_step4_triton_kernel.py:280-299 | A phase logs its loads under its token, one for each miss, and the eviction counter agrees with the log |
| `GpuTallies.TokenLogged` | modal_step4_triton_kernel.py:271-299 | One token loads each missing prediction under its own number and then each miss of serving under the next |
| `GpuTallies.RunLoads` | modal_step4_triton_kernel.py:271-299 | In every run with a pool, loads in the log = missing predictions + total_cache_misses, and the eviction total is the number of evictions in the log |
| `GpuSlots.GpuPool.Ensure` | modal_step4_triton_kernel.py:240-269 | In-place ensure_resident: new state, hit flag, lockstep kept |
| `GpuSlots.GpuPool.EnsureAll` | modal_step4_triton_kernel.py:283-299 | The loop over a list, misses counted |
| `GpuSlots.GpuPool.ServeToken` | modal_step4_triton_kernel.py:271-299 | One token in place; misses are zero if and only if the prediction fits |
| `JsonRoundTrip.RoundTrip` | dee.cpp/src/json_min.cpp:121-126 | For every document of objects, arrays, booleans, 64-bit integers, number tokens and strings, printed with any blanks, parsing the text gives its value with ok = true |
| `JsonErrors.FailedParseIff` | dee.cpp/src/json_min.cpp:22-126 | A failed parse yields Null exactly if the text does not open with a brace or a bracket; otherwise it yields the object or array read so far |
| `JsonErrors.FailedParseKeepsPart` | dee.cpp/src/json_min.cpp:58-73 | Concrete text: an array without its closing bracket fails with the element it read |
| `JsonAccepts.AcceptsIff` | dee.cpp/src/json_min.cpp:22-126 | The parser accepts a text with value v exactly if the text begins, after white space, with a document that denotes v, whatever follows, or is a string left open at the end of the text |
| `JsonAccepts.ValueSpelled` | dee.cpp/src/json_min.cpp:22-116 | Every value read without error was spelled out as such a document, unless it is an unclosed string |
| `JsonAccepts.ElementsSpelled` | dee.cpp/src/json_min.cpp:58-73 | Every array read without error is its printed items and a closing bracket |
| `JsonAccepts.MembersSpelled` | dee.cpp/src/json_min.cpp:35-56 | Every object read without error is its printed members and a closing brace |
| `JsonRoundTrip.DocParses` | dee.cpp/src/json_min.cpp:22-116 | The same at any position inside a longer text, with the cursor left just after the document |
| `JsonRoundTrip.ElementsParse` | dee.cpp/src/json_min.cpp:58-73 | Array items are read back in order |
| `JsonRoundTrip.MembersParse` | dee.cpp/src/json_min.cpp:35-56 | Object members are read back under their keys, a repeated key keeping its last value |
| `JsonRoundTrip.ReadsString` | dee.cpp/src/json_min.cpp:75-97 | A printed string is read back and the cursor passes its closing quote |
| `JsonRoundTrip.ReadsInt` | dee.cpp/src/json_min.cpp:105-116 | A printed 64-bit integer is read back |
| `JsonRoundTrip.ReadsToken` | dee.cpp/src/json_min.cpp:105-116 | A number token is read whole, as the integer or float it converts to |
| `JsonNumbers.CharactersAre` | dee.cpp/src/json_min.cpp:18-29 | The white space, digit and number characters of the reader, listed |
| `JsonNumbers.StollTakes` | dee.cpp/src/json_min.cpp:105-116 | An integer token is its sign and leading digits, whatever follows; it throws without digits or beyond 64 bits |
| `JsonNumbers.MantissaIff` | dee.cpp/src/json_min.cpp:105-116 | A float token converts exactly if a digit follows an optional sign and an optional point |
| `JsonRoundTrip.StollInverse` | dee.cpp/src/json_min.cpp:105-116 | Integer conversion inverts decimal printing on the 64-bit range |
| `JsonSpec.ParseValue` | dee.cpp/src/json_min.cpp:22-31 | On every text the reader terminates and its cursor never passes length + 1 |
| `JsonSpec.ParseElements` | dee.cpp/src/json_min.cpp:58-73 | The same for the array loop |
| `JsonSpec.ParseMembers` | dee.cpp/src/json_min.cpp:35-56 | The same for the object loop |
| `JsonSpec.ParseKey` | dee.cpp/src/json_min.cpp:41-46 | A key read leaves the cursor strictly advanced and inside the text |
| `JsonSpec.ParseString` | dee.cpp/src/json_min.cpp:75-97 | A string strictly advances the cursor, at most to length + 1 |
| `JsonSpec.ParseNumber` | dee.cpp/src/json_min.cpp:105-116 | A number strictly advances the cursor inside the text |
| `JsonSpec.ParseBool` | dee.cpp/src/json_min.cpp:99-103 | A boolean keeps the cursor inside the text |
| `JsonParser.Parser.ReadValue` | dee.cpp/src/json_min.cpp:22-31 | The recursive-descent method leaves the value, cursor and error flag of the reader function |
| `JsonParser.Parser.ReadObject` | dee.cpp/src/json_min.cpp:35-56 | In-place object loop |
| `JsonParser.Parser.ReadArray` | dee.cpp/src/json_min.cpp:58-73 | In-place array loop |
| `JsonParser.Parser.ReadKey` | dee.cpp/src/json_min.cpp:41-46 | In-place key and colon, error flag raised where one is missing |
| `JsonParser.Parser.ReadString` | dee.cpp/src/json_min.cpp:75-97 | In-place string loop |
| `JsonParser.Parser.ReadNumber` | dee.cpp/src/json_min.cpp:105-116 | In-place number loop; absent where the conversion throws |
| `JsonParser.Parser.ReadBool` | dee.cpp/src/json_min.cpp:99-103 | In-place boolean |
| `JsonParser.ParseText` | dee.cpp/src/json_min.cpp:121-126 | The whole parse: value and ok flag |
| `Decimals.DecimalValue` | dee.cpp/tests/gen_synthetic_shard.py:61 | Decimal digits read back to the number they print |
| `Decimals.PrintIntInjective` | dee.cpp/src/weight_mmap.cpp:164-176 | Distinct integers print differently |
| `SafetensorsRoundTrip.WrittenLookup` | dee.cpp/src/weight_mmap.cpp:91-161 | For any list of tensors laid out by the writer, whatever their names, open succeeds and looking up the name a tensor reads as returns the exact bytes, dtype and shape of the last tensor that reads so |
| `SafetensorsRoundTrip.LookupGivesType` | dee.cpp/src/weight_mmap.cpp:15-20 | The view of a written tensor has the type the writer named: one of the three 32-bit names, F16, BF16, or unknown |
| `SafetensorsRoundTrip.DTypeGivenBack` | dee.cpp/src/weight_mmap.cpp:15-20 | The same for the type names alone, as json.dumps writes and the parser reads them |
| `SafetensorsRoundTrip.ReadsItselfIff` | dee.cpp/src/json_min.cpp:75-97 | A name written by json.dumps reads back as itself exactly if it is made of printable ASCII characters, newlines, returns and tabs |
| `SafetensorsRoundTrip.UnwrittenLookup` | dee.cpp/src/weight_mmap.cpp:144-161 | A name that no tensor reads as is not found |
| `SafetensorsRoundTrip.OpensWritten` | dee.cpp/src/weight_mmap.cpp:91-142 | Opening a written file yields its header and the table of its entries |
| `SafetensorsRoundTrip.OpensIff` | dee.cpp/src/weight_mmap.cpp:91-117 | A file of bytes opens exactly if it is a length, a header of that length that parses to an object, and any data; its header is then that one |
| `SafetensorsRoundTrip.ListedIff` | dee.cpp/src/weight_mmap.cpp:118-128 | A header entry is listed exactly if it is not the metadata and names a type and at least two offsets |
| `SafetensorsRoundTrip.ListedAs` | dee.cpp/src/weight_mmap.cpp:129-139 | Offset and size come from the first two offsets modulo 2^64, one that is no integer counting as zero; a missing shape is empty |
| `SafetensorsRoundTrip.IntsOfMixed` | dee.cpp/src/weight_mmap.cpp:130-132 | The integers of a mixed list are kept in order, everything else is dropped |
| `SafetensorsRoundTrip.HeaderParses` | dee.cpp/tests/gen_synthetic_shard.py:59-61 | The written header parses to the object of its entries |
| `SafetensorsRoundTrip.HeaderLists` | dee.cpp/tests/gen_synthetic_shard.py:59-61 | That object lists, under every name read, the entry of the last tensor that reads so with its own offsets, and nothing else |
| `SafetensorsRoundTrip.EntryMeta` | dee.cpp/src/weight_mmap.cpp:118-139 | An entry is decoded to the offset, size, dtype and shape it was written with |
| `SafetensorsRoundTrip.DataSlice` | dee.cpp/tests/gen_synthetic_shard.py:50-57 | The recorded offsets delimit exactly the tensor's bytes in the data section |
| `SafetensorsSpec.LittleEndianInverse` | dee.cpp/src/weight_mmap.cpp:94-97 | Reading a little-endian length inverts writing it |
| `TensorResolver.NameInjective` | dee.cpp/src/weight_mmap.cpp:164-176 | Distinct layer, expert or projection give distinct tensor names |
| `TensorResolver.ResolvesOwn` | dee.cpp/src/weight_mmap.cpp:182-189 | resolve finds a tensor if and only if in some registered shard the last one that reads as that name is non-empty, and returns the bytes of such a one |
| `TensorResolver.ResolvesApart` | dee.cpp/src/weight_mmap.cpp:164-189 | No stored tensor can be the answer for two different experts or projections |
| `TensorResolver.ResolvesProjections` | dee.cpp/src/weight_mmap.cpp:164-189 | gate, up and down of an expert each resolve to the bytes the generator stored under that projection's own name, from the first shard that has it |
| `TensorResolver.NameIsShardName` | dee.cpp/tests/gen_synthetic_shard.py:25-26 | The resolver's names are the generator's |
| `TensorResolver.ResolvesFirst` | dee.cpp/src/weight_mmap.cpp:182-189 | When several shards hold the name, the first decides |
| `TensorResolver.NamedIsStored` | dee.cpp/tests/gen_synthetic_shard.py:25-48 | A tensor written under the generator's name is found under it |
| `TensorResolver.LookupIff` | dee.cpp/src/weight_mmap.cpp:144-161 | lookup finds a non-empty tensor exactly if the last one that reads as that name is not empty, and shows its bytes |
| `WeightMmaps.WeightMmap.OpenFile` | dee.cpp/src/weight_mmap.cpp:91-100 | In-place open: succeeds exactly where the specification does, with the same table; a header length that wraps around is refused by the throw it causes |
| `WeightMmaps.WeightMmap.ParseHeader` | dee.cpp/src/weight_mmap.cpp:111-142 | The loop over the header, in any order, fills the same table |
| `WeightMmaps.WeightMmap.ReadEntry` | dee.cpp/src/weight_mmap.cpp:118-139 | One entry, or none where a field is missing or of the wrong kind |
| `WeightMmaps.WeightMmap.ReadShape` | dee.cpp/src/weight_mmap.cpp:130-132 | The integer elements of the shape, in order |
| `WeightMmaps.Resolve` | dee.cpp/src/weight_mmap.cpp:182-189 | The walk over the shards returns the first non-empty match |
| `TopK.Predict` | dee.cpp/src/oracle.cpp:62-72 | The result is distinct, in range, sorted by descending logit, of width min(topk, E), and no expert left out has a higher logit than one chosen |
| `TopK.SortByLogit` | dee.cpp/src/oracle.cpp:66-68 | The index vector is sorted in place into a permutation with descending logits |
| `TopK.FrontIsTopK` | dee.cpp/src/oracle.cpp:68-71 | The front of a descending permutation is a top-K selection |
| `Memory.Copy` | dee.cpp/src/async_prefetcher.cpp:106-107 | The in-place byte copy |

## Left out

- CUDA runtime paths, real streams and the Triton kernel: foreign calls; only the mock path of the prefetcher and the mock device are modelled.
- Floating-point numerics: SwiGLU is an arbitrary function of accumulator and blob, logits and oracle priorities are reals without NaN, and the mean and RMS scaling at the end of `forward_layer` are not modelled.
- `f16`, `bf16` conversions and the packing of gate, up and down tensors into one blob: an expert's blob is a fixed byte string, or absent where its tensors are missing.
- `Engine::init` and `Engine::generate`: only the sequences of layer calls and resets they produce are modelled; `generate` overwrites the layer fallback counter at its end.
- `Generator`, the prefetch-driving scheduler, `dee_bench` and `PtLoader`: they call interfaces the headers do not define, or have no writer to compare with.
- File mapping, logging, timing and the data-collection and training scripts: I/O plumbing.
- `AsyncPrefetchers.AsyncPrefetcher.Prefetch`: transfer identifiers, clocks and statistics are unbounded integers; `int` overflow of the queue index is not modelled.
- `PrefetchSpec.PackInjective`: the index is keyed by a C++ `long` (dee.cpp/include/dee/async_prefetcher.h:91), taken to have 64 bits like `size_t`; where it has 32, the layer is dropped from the key and experts of different layers share an entry.
- `Memory.Copy`: copies that leave the arena are excluded by precondition, which every reachable state is proved to meet.
- `MockDeviceSpec.RunFollowsTrace`: copies capture their source bytes, so sources are taken to be immutable while queued.
- `SlotCaches.VramSlotCache.Create`: failure of the device allocation and slot pointer arithmetic are not modelled.
- `SlotInclusion.Inclusion`: the priority of an expert is fixed over the run; the source reads it once, when the expert enters.
- `GpuSlots.GpuPool.Ensure`: the copy into a slot happens when it is issued; overlap with compute and the staging buffer shared by all copies are not modelled.
- `TopK.SortByLogit`: the library sort is a selection sort with the same promise; which of several equal logits comes first is not promised.
- `JsonSpec.ParseNumber`: a floating-point number keeps its spelling; the exception for a magnitude outside the range of double is not modelled.
- `JsonParser.Parser.ReadNumber`: the same as for `JsonSpec.ParseNumber`.
- `JsonRoundTrip.RoundTrip`: the reader knows no `null`, so it is not in the grammar; an escape other than those for newline, tab and return denotes its own character, as the reader takes it, which for `\b`, `\f` and `\u` is not what RFC 8259 means.
- `WeightMmaps.WeightMmap.OpenFile`: offsets that point beyond the file are not modelled.
