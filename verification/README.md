# A verified model of the NV Embedding Cache host code

NV Embedding Cache is a tiered cache of fixed-size embedding rows. This project models its host-side control code in Dafny
and proves what that code is relied on for. Concurrent parts are step systems: a run is a list of states and a list of
events, and a theorem about runs holds for every interleaving. Code that updates objects, arrays or maps in place is a
class or a method with loops, proved against functions on values; the theorems are then about those functions.

| component | modules |
|---|---|
| grace-period protocol between a modify and the lookups | `GracePeriod`, `GraceEffect`, `GraceProgress` |
| set-associative cache with host metadata | `KeyHash`, `CacheSpec`, `CacheUpdate`, `SetCache`, `CacheRuns`, `InsertOptimal`, `InsertWinners`, `InsertMixed`, `InsertIdeal`, `InsertStakes`, `InsertForecast`, `Histogram`, `PoolLayout` |
| partitioned host tables | `BitMask`, `ParallelFind`, `FindPlan`, `FindWords`, `SlotMemory`, `SlotTable`, `PartialRows`, `EvictionOrder`, `UseHistory`, `SlotPartition`, `PartitionedBatch`, `NvhmInsert`, `NvhmFind`, `NvhmTask`, `NvhmLookup` |
| auto-insert handler and insert heuristic | `AutoInsert`, `InsertLog`, `InsertHeuristic`, `HeuristicSamples` |
| thread pool | `WorkerGroup`, `BurstSubmit` |
| `.nve` table files | `TensorFile`, `TensorStream` |
| buffers in several kinds of memory | `BufferCoherence`, `BufferContents` |
| host lookup, gather and pooling | `ParallelFor`, `LinearGather`, `Pooling`, `PoolingLaws`, `HostLookup`, `HostKernels`, `StaleRows` |
| shared definitions | `Arith`, `Common` |

## Where the code does less than it says

Each of these is a property that fails in general, with the exact condition under which it holds.

- A cache slot without a key holds the tag -1. The code takes that tag to belong to no usable key. It matches a key exactly
  if the number of sets divides the key modulus and the key's unsigned value is in the last block of that many values
  (`KeyHash.SentinelMatch`).
- `invalidate` computes a slot index in 32 bits, and so does `update` for 32-bit keys; for 64-bit keys `update` computes it in
  64 bits. In 32 bits it is right for all ways of a set exactly if the set index is below 2^29 (`KeyHash.SlotIndexAgrees`).
- An insert should keep the keys with the eight largest stakes of a set: decayed counter plus priority for a resident key,
  priority for a new one. It does exactly if no resident key of the batch that had a positive counter gives way before its
  turn although its stake is above something the set ends with (`InsertIdeal.IdealIff`, `InsertStakes.WrongedExample`).
  Where no counter is tied, that can be told before the call, from the counters and the batch
  (`InsertForecast.ForecastIff`).
- The pool sizes are exact, so carving a pool succeeds exactly if its base is 16-byte aligned
  (`PoolLayout.DevicePoolFitsIff`, `PoolLayout.HostPoolFitsIff`).
- A new slot buffer yields a slot exactly if the allocation rate reaches the slot stride (`SlotTable.CarvesIff`). The enforced
  bound on the rate (the largest value) ensures that exactly if there is no metadata and the value is a multiple of the
  alignment, the documented one (more than value plus metadata) exactly if padding adds at most one byte
  (`SlotTable.RateBoundsIff`).
- What was written under a key determines the row that a lookup returns exactly if the writes cover the row
  (`PartialRows.DeterminedIff`); otherwise the row ends with what its slot held before (`SlotTable.ReusedRow`).
- The nvHashMap table stores a key before it evicts. An overflow evicts the new key under every order exactly if as many
  others as may stay have larger metadata, and keeps it under every order exactly if fewer have metadata at least as large
  (`NvhmInsert.FreshKeyEvictedIff`, `NvhmInsert.FreshKeyKeptIff`, `NvhmInsert.FreshKeyEvictedExample`).
- A caller that adds to a collection with another stride throws while it holds the auto-insert lock, and the handler never
  inserts again; that is the only way to lose the lock (`AutoInsert.StuckIff`, `AutoInsert.StuckForEver`,
  `AutoInsert.StuckExample`).
- The NUMA pool queues the average number of terminators per workgroup. From every state that it can reach, all workers can
  still exit exactly if all workgroups have the same size (`WorkerGroup.PoolExitsIff`). What is submitted after the
  terminators never runs exactly if there is one for every worker, in a pool again exactly if all workgroups have the same
  size (`WorkerGroup.NeverRunsLateIff`, `WorkerGroup.PoolRunsLateIff`).
- Loading a name from a file never ends exactly if the file has the right header and the chain of entries that the search
  follows comes back to itself before it meets the name (`TensorFile.LoadEndsIff`, `TensorFile.SelfLoop`).
- Accessing a buffer without copying its content and not writing it loses what was written before; the returned buffer holds
  the latest content exactly if it is one the caller knows to hold it (`BufferCoherence.LatestIff`,
  `BufferCoherence.SkippedCopyLoses`).
- The output of the host lookup depends on what the scratch buffer held before exactly if no default row is configured and
  some missed key matters: its row goes to the output as it is or converted, or it is in a bag with a weight other than zero
  (and, for a weighted mean, with weights that do not add up to zero) (`StaleRows.StaleIff`, `StaleRows.StaleExample`).

## Model

| member | source | states |
|---|---|---|
| GracePeriod.StepInv | include/ecache/ec_set_associative_host_modify.h:414-471 | one inductive invariant for any number of lookups, custom flows and the steps of a modify: no lookup copies a word that has been overwritten; that the modify also takes effect is `GraceEffect` |
| GracePeriod.RunInv | include/ecache/ec_set_associative_host_modify.h:414-471 | the invariant in every reachable state of every interleaving |
| GracePeriod.NoReaderUnderWrite | include/ecache/ec_set_associative_host_modify.h:414-471 | once a word of a slot is written, no lookup that had matched the slot's tag before ever copies from the row again |
| GracePeriod.HitIsAtomic | include/ecache/embed_cache.h:493-518 | the words a finished hit copied, one at a time, are a whole row that was published for its key at a single earlier instant at which its tag was valid |
| GracePeriod.CommittedProvenance | include/ecache/ec_set_associative_host_modify.h:414-471 | a published row is the one at the start of the run or the one some modify of the run carried for that slot |
| GracePeriod.HitIsOldOrNew | include/ecache/embed_cache.h:441-450 | a finished hit returns a whole old or a whole new row, never a mixture |
| GracePeriod.PendingCanAdvance | include/ecache/embed_cache.h:155-178 | a recorded kernel that has not finished always has a step of its own, so waiting for it is not a deadlock |
| GracePeriod.GraceClears | include/ecache/ec_set_associative.h:474-482 | when the recorded kernels have finished, no lookup reads a slot of the modify list |
| GraceEffect.RunSlot | include/ecache/ec_set_associative_host_modify.h:414-471 | in every interleaving, at every moment from the start of a modify to the next one, the tag and the row of every slot as a function of the state before, the list and the progress of the modify |
| GraceEffect.ReplaceTakesEffect | include/ecache/ec_set_associative_host_modify.h:414-471 | when a replacement ends, every slot of its list holds the key and the row it was given and every other slot what it held before |
| GraceEffect.InvalidationTakesEffect | include/ecache/ec_set_associative_host_modify.h:414-445 | when an invalidation ends, no slot of its list holds a key, every other tag is as before and no row has changed |
| GraceEffect.NewRowIsFound | include/ecache/embed_cache.h:441-450 | a lookup launched after a replacement for one of its keys can match the slot, and then holds the new row |
| GraceEffect.NoneIsFound | include/ecache/embed_cache.h:441-450 | until the next modify begins no lookup matches a slot that an invalidation cleared |
| GraceEffect.HitIsForKey | include/ecache/embed_cache.h:493-518 | what a finished hit copied is a whole row that was published for the very key the lookup was started with |
| GraceProgress.CanFinish | include/ecache/ec_set_associative_host_modify.h:414-471 | from every state that meets the invariant, steps lead to one with no modify in progress and the lock free |
| GraceProgress.ModifyCompletes | include/ecache/ec_set_associative_host_modify.h:414-471 | so in every reachable state of every interleaving the modify can be completed, and then another modify or a custom flow can start |
| GraceProgress.ResidentIsFound | include/ecache/embed_cache.h:441-450 | in every reachable state, whatever a modify is doing, a lookup launched for a key whose tag is valid can copy the whole of its row |
| GraceProgress.ResidentIsFoundByFlow | include/ecache/embed_cache.h:493-518 | so can a custom flow if no modify holds the lock, and it can then end and release |
| KeyHash.RoundTrip | include/ecache/ec_hash.h:36-60 | tag and set index determine every key, negative ones included |
| KeyHash.TagsDistinct | include/ecache/ec_hash.h:36-60 | two keys of one set have the same tag only if they are the same key |
| KeyHash.SplitsKey | include/ecache/ec_hash.h:36-60 | tag and set index are quotient and remainder of the unsigned key by the number of sets, and nothing else is |
| KeyHash.SentinelKey | include/ecache/ec_hash.h:54-60 | the key that an empty slot of a set stands for |
| KeyHash.SentinelMatch | include/ecache/ec_set_associative_host_modify.h:255-266 | an empty slot matches a key if and only if the number of sets divides the modulus and the key is in the last block |
| KeyHash.SmallKeysMissSentinel | include/ecache/ec_set_associative_host_modify.h:255-266 | no key below the last block matches an empty slot |
| KeyHash.SentinelAliasExample | include/ecache/ec_set_associative_host_modify.h:255-266 | a key whose tag is not the sentinel and that matches an empty slot all the same |
| KeyHash.SlotIndexAgrees | include/ecache/ec_set_associative_host_modify.h:158-163 | the 32-bit slot index is the true one for every way if and only if the set index is below 2^29 |
| CacheSpec.KeyHashOk | include/ecache/ec_hash.h:36-60 | the hash meets what the cache needs of it: different usable keys of a set never match the same tag |
| CacheSpec.MatchUnique | include/ecache/ec_set_associative_host_modify.h:484-494 | in a well-formed tag store at most one slot matches a key |
| CacheSpec.InsertOneOk | include/ecache/ec_set_associative_host_modify.h:249-288 | inserting one key keeps every key in at most one slot and keeps pending entries and tags in step; what it does to the counters is `InsertMixed.ResidentGains` and `InsertOptimal.MissTop` |
| CacheSpec.InsertUpToOk | include/ecache/ec_set_associative_host_modify.h:236-288 | after any prefix of a batch no set holds a key twice and each pending entry is the row and tag of a batch key for the slot it fills |
| CacheSpec.PendingBounded | include/ecache/ec_set_associative_host_modify.h:249-293 | the modify list never exceeds the largest update size |
| CacheUpdate.UpdateListSound | include/ecache/ec_set_associative_host_modify.h:475-501 | every entry of an update list is a resident key of the batch with its own slot, tag and data |
| CacheUpdate.UpdateListComplete | include/ecache/ec_set_associative_host_modify.h:475-501 | every resident key that comes early enough in the batch has an entry, at the position given by its rank |
| CacheUpdate.UpdateListDistinct | include/ecache/ec_set_associative_host_modify.h:475-501 | for different keys the slots of an update list are different |
| CacheUpdate.InvalidateUpToOk | include/ecache/ec_set_associative_host_modify.h:133-182 | invalidating any prefix of a list removes exactly those keys, repeated ones included, and keeps the tag store well-formed |
| CacheUpdate.InvalidateList | include/ecache/ec_set_associative_host_modify.h:133-182 | the slots of the invalidation list are all different, within the store, and hold no key |
| CacheUpdate.InvalidateCount | include/ecache/ec_set_associative_host_modify.h:133-182 | the length of the invalidation list is the number of different resident keys |
| SetCache.SetCache.constructor | include/ecache/ec_set_associative_host_modify.h:505-517 | a new cache is consistent and holds no key |
| SetCache.SetCache.FindWay | include/ecache/ec_set_associative_host_modify.h:255-266 | the way search finds the one slot that holds a key, or none |
| SetCache.SetCache.LeastCounter | include/ecache/ec_set_associative_host_modify.h:270-276 | the eviction candidate is the first way with the least counter |
| SetCache.SetCache.Modify | include/ecache/ec_set_associative_host_modify.h:414-471 | tags of the list cleared, rows written, tags published, in this order and nothing else |
| SetCache.SetCache.Insert | include/ecache/ec_set_associative_host_modify.h:212-302 | host tags, counters and the last written rows after a whole batch are those of the function that `InsertMixed`, `InsertIdeal` and `InsertStakes` characterize, device and host tags equal again, list within bounds and without repeated slots |
| SetCache.SetCache.SearchForUpdate | include/ecache/ec_set_associative_host_modify.h:475-501 | the loop computes the update list that the lemmas about it describe |
| SetCache.SetCache.Update | include/ecache/ec_set_associative_host_modify.h:305-378 | rows of the resident keys replaced or combined up to the update limit, tags unchanged, list within bounds |
| SetCache.SetCache.Invalidate | include/ecache/ec_set_associative_host_modify.h:133-182 | exactly the listed keys disappear, on host and device |
| SetCache.SetCache.Clear | include/ecache/ec_set_associative_host_modify.h:195-209 | no key remains and all counters are zero |
| SetCache.SetCache.LookupIsLastWritten | include/ecache/embed_cache.h:441-450 | a lookup on device tags and rows returns the row last written for a resident key and misses every other |
| SetCache.InsertRowsOk | include/ecache/ec_set_associative_host_modify.h:278-302 | writing the pending rows makes every resident key's row its last written one |
| SetCache.UpdateRowOfKey | include/ecache/ec_set_associative_host_modify.h:305-378 | an update changes a key's row exactly if its rank among the resident keys is below the limit |
| SetCache.UpdateRowsOk | include/ecache/ec_set_associative_host_modify.h:305-378 | the rows after an update are the last written ones |
| SetCache.InvalidateClears | include/ecache/ec_set_associative_host_modify.h:133-182 | clearing the listed device tags gives the host tags |
| SetCache.PublishSame | include/ecache/ec_set_associative_host_modify.h:447-471 | clearing and then publishing a list without repeated slots gives the host tags |
| CacheRuns.StepInv | include/ecache/ec_set_associative_host_modify.h:133-302 | every operation keeps device tags equal to host tags and no key in two slots, with a bounded list of different slots |
| CacheRuns.StepRefines | include/ecache/ec_set_associative_host_modify.h:133-302 | every operation acts on the map from resident keys to rows as its abstract counterpart allows |
| CacheRuns.RunInv | include/ecache/ec_set_associative_host_modify.h:133-302 | the invariant after any sequence of insert, update, invalidate and clear |
| CacheRuns.RunRefines | include/ecache/ec_set_associative_host_modify.h:133-302 | every run of the cache is a run of the abstract map |
| CacheRuns.LookupAgrees | include/ecache/embed_cache.h:441-450 | in every reachable state a lookup agrees with the abstract map, for every usable key |
| InsertOptimal.TopUnique | include/ecache/ec_set_associative_host_modify.h:236-288 | the eight largest of a collection are determined as a multiset |
| InsertOptimal.MissTop | include/ecache/ec_set_associative_host_modify.h:268-286 | replacing the least counter, or declining to, keeps the eight largest |
| InsertOptimal.InsertKeepsTop8 | include/ecache/ec_set_associative_host_modify.h:236-288 | after any batch in descending order, cut off or not, a set's counters are the eight largest of its old ones and the priorities that were reached |
| InsertOptimal.InsertIsOptimal | include/ecache/ec_set_associative_host_modify.h:236-288 | for a batch within the update limit, the eight largest of the old counters and all priorities of the set |
| InsertWinners.NewKeyWins | include/ecache/ec_set_associative_host_modify.h:236-288 | a batch key whose priority nothing else in its set equals is resident afterwards if and only if the priority is among the eight largest on offer |
| InsertWinners.OldKeyStays | include/ecache/ec_set_associative_host_modify.h:236-288 | a resident key whose counter nothing else in its set equals stays if and only if the counter is among them |
| InsertWinners.StepWinners | include/ecache/ec_set_associative_host_modify.h:212-302 | so the map after an insert step of a run holds exactly the winners |
| InsertMixed.ResidentGains | include/ecache/ec_set_associative_host_modify.h:255-266 | inserting a resident key raises the counter of its slot by exactly the priority and changes nothing else |
| InsertMixed.KeptGains | include/ecache/ec_set_associative_host_modify.h:236-288 | over any prefix of any batch, a key whose slot is not refilled stays and its counter grows by exactly the sum of its priorities that were reached |
| InsertMixed.ThroughoutGains | include/ecache/ec_set_associative_host_modify.h:212-302 | after an insert step of a run, the counter of a key that stayed is its old one times the decay rate plus that sum |
| InsertMixed.MixedKeepsTop | include/ecache/ec_set_associative_host_modify.h:236-288 | for batches with resident and new keys, cut off or not, a set ends with the eight largest of what it holds and what it lost |
| InsertIdeal.IdealIff | include/ecache/embed_cache.h:664-678 | for every batch within the update limit, resident keys included, a set ends with the eight largest stakes if and only if no resident key of the batch is wronged |
| InsertIdeal.Balance | include/ecache/ec_set_associative_host_modify.h:236-288 | above every threshold a set holds and has lost as many as there are stakes, apart from the keys that gave way before their turn |
| InsertIdeal.DisplacedBelow | include/ecache/ec_set_associative_host_modify.h:268-286 | the old counter of a key that gave way is not above anything the set ends with |
| InsertStakes.WinsIff | include/ecache/ec_set_associative_host_modify.h:236-288 | where no key is wronged, a resident or new key whose stake is not tied is resident afterwards if and only if fewer than eight stakes are larger |
| InsertStakes.DisplacedBy | include/ecache/ec_set_associative_host_modify.h:268-286 | a resident key gives way only to an earlier key of its set whose priority reaches its decayed counter |
| InsertStakes.NoneWrongedIf | include/ecache/ec_set_associative_host_modify.h:236-288 | no key is wronged if the decayed counter of every resident batch key is above the priorities of the keys of its set before it |
| InsertStakes.WrongedExample | include/ecache/ec_set_associative_host_modify.h:236-288 | a batch of two keys on a full set after which a key with a larger stake is gone |
| InsertForecast.DisplacedIff | include/ecache/ec_set_associative_host_modify.h:236-288 | a resident key of the batch gives way before its turn if and only if eight claims, counted from the counters and the batch alone, are above its counter |
| InsertForecast.ForecastIff | include/ecache/ec_set_associative_host_modify.h:236-288 | without ties, the eight largest stakes stay if and only if that count, made before the call, shows no key that gives way with a stake which fewer than eight claims reach |
| InsertOptimal.HistogramInsertIsOptimal | include/ecache/embed_cache.h:664-678 | the batch that the histogram yields is one for which the insert is optimal |
| Histogram.Collect | include/ecache/embed_cache.h:199-229 | one bin per different key with its multiplicity; the counts add up to the input length |
| Histogram.Sort | include/ecache/embed_cache.h:199-229 | descending counts and the same bins |
| Histogram.Build | include/ecache/embed_cache.h:199-229 | different keys in descending order with priorities that are their relative frequencies |
| PoolLayout.DeviceFits | include/ecache/ec_set_associative.h:152-180 | the number of sets is chosen so that the device pool stays within the cache size |
| PoolLayout.SetsAreMost | include/ecache/ec_set_associative.h:152-180 | and one more set would not fit |
| PoolLayout.AlignedPoolsFit | include/ecache/ec_set_associative.h:344-392 | with aligned pools all regions are allocated back to back and use up the pools exactly |
| PoolLayout.DevicePoolFitsIff | include/ecache/ec_set_associative.h:681-732 | the device regions can be carved if and only if the pool base is aligned |
| PoolLayout.HostPoolFitsIff | include/ecache/ec_set_associative.h:681-732 | the host regions, counters included, can be carved if and only if the pool base is aligned |
| PoolLayout.CarvedInside | include/ecache/ec_set_associative.h:344-392 | for pools of any size at any address, the regions that are allocated lie in their pools and do not overlap |
| PoolLayout.RowInside | include/ecache/ec_set_associative_host_modify.h:282 | every row of every table, set and way lies in the data region |
| PoolLayout.RowsDisjoint | include/ecache/ec_set_associative_host_modify.h:282 | the rows of different tables, sets or ways never overlap |
| PoolLayout.NumberInjective | include/ecache/ec_set_associative_host_modify.h:282 | table, set and way are determined by the row number |
| BitMask.InvertBits | include/bit_ops.hpp:202 | inverting is complement within the word |
| BitMask.ClipBits | include/bit_ops.hpp:233-253 | clipping keeps exactly the positions below the bound |
| BitMask.SetBits | include/bit_ops.hpp:238-244 | setting adds one position |
| BitMask.OrBits | include/bit_ops.hpp:255-259 | joining is union |
| BitMask.SkipBits | include/bit_ops.hpp:198-200 | `next` is the lowest position and `skip` removes it |
| BitMask.CountBits | include/bit_ops.hpp:194 | the population count is the number of positions |
| BitMask.AndOnes | include/host_table.hpp:54-123 | a hash masked with a power of two less one is its remainder, hence a partition index |
| ParallelFind.StepInv | include/stl_map_backed_table_detail.hpp:460-516 | each load, probe, join and finish of any task keeps the mask equal to the start plus the joined hits |
| ParallelFind.JoinAdds | include/stl_map_backed_table_detail.hpp:463-515 | a join turns on exactly as many new bits as it adds to its own count, although other tasks joined the word since it was loaded |
| ParallelFind.StepValues | include/stl_map_backed_table_detail.hpp:484-525 | rows of new hits are copied or one step behind, all other rows untouched |
| ParallelFind.RunInv | include/stl_map_backed_table_detail.hpp:439-530 | mask, hit balance and rows in every reachable state |
| ParallelFind.FindIsCorrect | include/stl_map_backed_table_detail.hpp:416-534 | for every interleaving the final mask, rows and hit total are those of the resident keys |
| ParallelFind.NoDeadlock | include/stl_map_backed_table_detail.hpp:439-530 | until all are done some task can step |
| FindPlan.VisitIff | include/stl_map_backed_table_detail.hpp:428-461 | a task window visits a word at a step if and only if these are quotient and remainder of the word's rotated position |
| FindPlan.StartsSpread | include/stl_map_backed_table_detail.hpp:428-461 | the partitions start evenly spread: from one to the next by the quotient of words by partitions, or one more |
| FindPlan.PlanIsExact | include/stl_map_backed_table_detail.hpp:428-461 | every pair of partition and mask word is visited exactly once despite the rotated starts, for every table and task size |
| FindPlan.ProblemIsOk | include/stl_map_backed_table_detail.hpp:428-461 | every lookup, with any key count and task size, meets what the interleaving theorems ask |
| FindPlan.LookupIsCorrect | include/stl_map_backed_table_detail.hpp:416-534 | by key position, for every key count, mask width, task size, partitioning and interleaving: bit on iff it was or the key is resident, row copied iff newly found, total equals bits turned on |
| FindWords.StepRefines | include/stl_map_backed_table_detail.hpp:460-516 | every load, probe, atomic join and finish on integer mask words is the step on bit sets of `ParallelFind` |
| FindWords.RunRefines | include/stl_map_backed_table_detail.hpp:439-530 | so is every interleaving |
| FindWords.FindIsCorrect | include/stl_map_backed_table_detail.hpp:416-534 | for every interleaving on words exactly the bits of the resident keys are turned on, and the hits are the growth of the population counts |
| FindWords.SameWords | include/bit_ops.hpp:154-267 | all interleavings end with the same integers and the same hits |
| FindWords.MaskedOk | include/host_table.hpp:54-123 | partitions chosen by masking any hash with a power of two less one meet what the lookup asks |
| FindWords.LookupIsCorrect | include/stl_map_backed_table_detail.hpp:416-534 | the whole lookup by key position, on words and with masked hashes, for every key count, mask width, task size and interleaving |
| SlotMemory.SlotsApart | include/stl_map_backed_table_detail.hpp:261-271 | two slots never share a byte |
| SlotMemory.WriteValueAt | include/stl_map_backed_table_detail.hpp:276 | writing a value changes its own slot's value, no metadata and no other slot |
| SlotMemory.WriteMetaAt | include/stl_map_backed_table_detail.hpp:278-285 | writing metadata changes nothing else |
| SlotTable.StepInv | include/stl_map_backed_table_detail.hpp:57-292 | free and mapped slots stay disjoint, unrepeated and together exactly the carved ones, under every operation |
| SlotTable.StepSize | include/stl_map_backed_table_detail.hpp:217-259 | the size stays within the larger of the margin and the resolution plus one |
| SlotTable.RunInv | include/stl_map_backed_table_detail.hpp:36-363 | conservation and size bound in every reachable state of a partition |
| SlotTable.EvictOk | include/stl_map_backed_table_detail.hpp:242-259 | an eviction leaves exactly the last `resolution` keys of its order with their rows, counts halved under LFU only |
| SlotTable.EvictsSmallest | include/stl_map_backed_table_detail.hpp:226-247 | no evicted key has larger metadata than a survivor |
| UseHistory.RunStanding | include/stl_map_backed_table_detail.hpp:217-363 | in every reachable state the metadata of a key is the time of its last use, or the count of its uses halved by every eviction since, as the history of operations gives it |
| UseHistory.EvictsLeastUsed | include/stl_map_backed_table_detail.hpp:226-259 | in every run an insert that evicts removes no key that was used more recently, or more often, than one that stays |
| SlotTable.CarveOk | include/stl_map_backed_table_detail.hpp:261-271 | a new buffer adds exactly its slots to the free ones |
| SlotTable.InsertOk | include/stl_map_backed_table_detail.hpp:203-288 | an insert puts the value on top of the key's row, evicts only when full, and leaves every remaining row |
| SlotTable.InsertMeta | include/stl_map_backed_table_detail.hpp:249-285 | a new key starts with the insert time or a count of one, and only an LFU eviction changes the metadata of others, by halving |
| SlotTable.StepRefines | include/stl_map_backed_table_detail.hpp:57-363 | every operation refines its effect on a map from keys to known row prefixes |
| SlotTable.RunRefines | include/stl_map_backed_table_detail.hpp:57-363 | so does every run |
| SlotTable.FindsWritten | include/stl_map_backed_table_detail.hpp:478-509 | a row returned by a lookup is what was written if the writes covered it; that it is determined only then is `PartialRows.DeterminedIff` |
| SlotTable.ReusedRow | include/stl_map_backed_table_detail.hpp:273-287 | a new key takes over the last freed slot together with the bytes its write does not cover |
| PartialRows.DeterminedIff | include/stl_map_backed_table_detail.hpp:203-288 | over all runs from the empty partition, the writes under a key determine its row if and only if they cover it |
| PartialRows.RunOver | include/stl_map_backed_table_detail.hpp:261-288 | for any shorter writes and any content, a run that leaves the writes on top of that content |
| SlotTable.CarvesIff | include/stl_map_backed_table_detail.hpp:177-178 | a new buffer yields a slot if and only if the allocation rate reaches the stride |
| SlotTable.RateBoundsIff | src/stl_map_backed_table.cpp:32 | for all sizes and alignments, exactly when every rate that meets the enforced bound, and every rate that meets the documented one, yields a slot |
| EvictionOrder.AfterBounds | include/stl_map_backed_table_detail.hpp:222-240 | in every order, at least the keys with larger metadata and at most those with metadata at least as large come after a key |
| EvictionOrder.LatestOrder | include/stl_map_backed_table_detail.hpp:222-240 | some order has only the larger ones after it |
| EvictionOrder.EarliestOrder | include/stl_map_backed_table_detail.hpp:222-240 | some order has all that are at least as large after it |
| EvictionOrder.Enumerate | include/stl_map_backed_table_detail.hpp:222-240 | every key once, ascending by metadata where the policy keeps it |
| SlotPartition.Partition.Insert | include/stl_map_backed_table_detail.hpp:158-292 | the batch loop is a run of the partition with one insert per own key and nothing for the others; a size that does not fit changes nothing |
| SlotPartition.Partition.Update | include/stl_map_backed_table_detail.hpp:321-363 | likewise for updates |
| SlotPartition.Partition.Erase | include/stl_map_backed_table_detail.hpp:57-91 | likewise for erasures |
| SlotPartition.Partition.Clear | include/stl_map_backed_table_detail.hpp:43-50 | the partition is as new |
| SlotPartition.Partition.EvictKeys | include/stl_map_backed_table_detail.hpp:242-258 | the eviction loops do what the eviction theorems are about |
| SlotPartition.Partition.CarveBuffer | include/stl_map_backed_table_detail.hpp:261-271 | the carving loop pushes every slot of the new buffer, the first one last |
| PartitionedBatch.PartStep | include/stl_map_backed_table_detail.hpp:188-289 | after each key a partition holds its part of the in-order fold over as many keys |
| PartitionedBatch.BatchIsSequential | include/stl_map_backed_table_detail.hpp:57-363 | for any number of partitions, partitioning and interleaving, a batch insert without overflow, update or erase equals the in-order fold over one map |
| PartitionedBatch.LastWriteWins | include/stl_map_backed_table_detail.hpp:203-288 | the last occurrence of a key in the batch decides |
| PartitionedBatch.NoTaskWaits | include/stl_map_backed_table_detail.hpp:188-205 | no partition's scan waits for another |
| NvhmInsert.InsertSize | plugins/nvhm/src/nvhm_map_table.cpp:267-331 | after every key the size is below the margin or at most the resolution |
| NvhmInsert.EvictedOk | plugins/nvhm/src/nvhm_map_table.cpp:287-327 | an eviction leaves exactly `resolution` keys, the last of the order, with their rows |
| NvhmInsert.EvictsSmallest | plugins/nvhm/src/nvhm_map_table.cpp:305-318 | no evicted key has larger metadata than a survivor |
| NvhmInsert.InsertRows | plugins/nvhm/src/nvhm_map_table.cpp:268-276 | every remaining key keeps its row, the inserted one with the new value on top |
| NvhmInsert.InsertMetas | plugins/nvhm/src/nvhm_map_table.cpp:277-328 | the same for metadata: initial values of a new key, halving by an LFU overflow, nothing else |
| NvhmInsert.FreshKeyEvictedIff | plugins/nvhm/src/nvhm_map_table.cpp:277-328 | under every policy, an overflow evicts the key just inserted for every order if and only if at least `resolution` others have larger metadata |
| NvhmInsert.FreshKeyKeptIff | plugins/nvhm/src/nvhm_map_table.cpp:277-328 | it keeps it for every order if and only if fewer than `resolution` others have metadata at least as large |
| NvhmInsert.FreshKeyEvictedExample | plugins/nvhm/src/nvhm_map_table.cpp:277-328 | three resident keys under LFU with which the new key always goes |
| NvhmInsert.Partition.InsertBatch | plugins/nvhm/src/nvhm_map_table.cpp:266-331 | the batch loop takes those steps, with its cached size always the map's size |
| NvhmFind.FindPlain | plugins/nvhm/src/nvhm_map_table.cpp:609-664 | the plain loop probes this partition's clear positions in ascending order |
| NvhmFind.FindQueued | plugins/nvhm/src/nvhm_map_table.cpp:522-609 | the pipelined lookup with any queue length gives the same word, rows, delayed copy and metadata updates as the plain loop |
| NvhmFind.Fill | plugins/nvhm/src/nvhm_map_table.cpp:570-582 | the queue holds the keys at the tail cursor's positions, in order, and is full unless the word is exhausted |
| NvhmFind.Stream | plugins/nvhm/src/nvhm_map_table.cpp:584-600 | serving one key for each that goes in keeps the front of the queue at the lowest position of the tail cursor |
| NvhmFind.FindFinds | plugins/nvhm/src/nvhm_map_table.cpp:522-664 | a word gains exactly the clear positions within the keys whose key is of this partition and resident |
| NvhmFind.ProbeAllRows | plugins/nvhm/src/nvhm_map_table.cpp:526-570 | once the copy that is one step behind is made, exactly the found keys have their resident rows at their places |
| NvhmFind.ProbeAllTouched | plugins/nvhm/src/nvhm_map_table.cpp:522-664 | the metadata of exactly the found keys is updated, in the order of their positions |
| NvhmTask.FindTask | plugins/nvhm/src/nvhm_map_table.cpp:466-683 | over all words of a lookup task, whatever other tasks join meanwhile, the words joined, rows, metadata updates and hits are the same for every queue length, none included |
| NvhmTask.JoinsSame | plugins/nvhm/src/nvhm_map_table.cpp:503-664 | a word that this loop joins is the one that a task of the interleaved lookup joins after loading the same word |
| NvhmLookup.LookupRows | plugins/nvhm/src/nvhm_map_table.cpp:466-683 | whatever the interleaving, each output row is the one that a task loop wrote for it after the loads of the run, and as before if none did |
| NvhmLookup.LookupHits | plugins/nvhm/src/nvhm_map_table.cpp:466-683 | the reported hits are those that the loops of all tasks count together |
| NvhmLookup.RunHits | plugins/nvhm/src/nvhm_map_table.cpp:503-683 | in every reachable state a task holds the hits of the words it has joined, and the total those of the finished tasks |
| AutoInsert.CollectAppends | src/layer_utils.cpp:132-199 | a call appends its part to the collected prefix of both buffers, and a collection in progress never makes them grow |
| AutoInsert.TakesAll | src/layer_utils.cpp:139-146 | a starting call gives all its keys; a later one gives all unless the collection reaches the minimum size, which it never exceeds |
| AutoInsert.StepInv | src/layer_utils.cpp:90-235 | the lock flag is set exactly while it is held, acquisitions and releases balance, and the buffers start with what was collected |
| AutoInsert.RunInv | src/layer_utils.cpp:90-235 | so in every reachable state of callers, inserts and modify sections |
| AutoInsert.BatchIsCollection | src/layer_utils.cpp:215-235 | an inserted batch is the pieces that the calls since the last reset gave, and at least the minimum size; which these are, key by key, is `InsertLog.RunInserts` and `InsertLog.InsertedKey` |
| InsertLog.RunFollows | src/layer_utils.cpp:90-199 | in every run, what has been collected is what a log kept from the events alone says: from which call, how many keys, with which stride, and how many calls are still skipped |
| InsertLog.TaskInserts | src/layer_utils.cpp:215-235 | an insert inserts exactly the calls in the log, rows included, and nothing else |
| InsertLog.RunInserts | src/layer_utils.cpp:90-235 | the batches of a run are those that the log tells, in order and no others |
| InsertLog.InsertedKey | src/layer_utils.cpp:188-199 | key by key: the key of the call if it has no hit mask or the key was a hit, else the sentinel |
| AutoInsert.NoReallocation | include/resizeable_buffer.hpp:46-62 | buffers are not reallocated while a collection is in progress |
| AutoInsert.WaitsBetween | src/layer_utils.cpp:112-122 | at least the configured number of calls take the lock between an insert and the next collection |
| InsertLog.WaitsSince | src/layer_utils.cpp:112-122 | counted from the events alone: after an insert, the call that starts the next collection has at least the configured number of others before it |
| AutoInsert.StuckIff | src/layer_utils.cpp:105-111 | a call keeps the lock if and only if it adds to a collection of another stride |
| AutoInsert.StuckExample | src/layer_utils.cpp:105-111 | a run from the start that loses the lock |
| AutoInsert.StuckForEver | include/layer_utils.hpp:164-202 | then nothing ever changes again |
| AutoInsert.FixedStride | src/layer_utils.cpp:105-111 | with a fixed stride no call keeps the lock |
| AutoInsert.HolderCanMove | src/layer_utils.cpp:124-129 | whoever holds the lock can take the step that leads to its release |
| AutoInsert.NoHeuristic | src/layer_utils.cpp:99-102 | without a heuristic nothing ever changes |
| AutoInsert.AutoInsertHandler.Offer | src/layer_utils.cpp:90-130 | the call as a whole does what the step system assumes of it |
| AutoInsert.AutoInsertHandler.CollectKeysAndData | src/layer_utils.cpp:132-199 | copying and the masking loop extend both buffers by the call's part, with missed keys replaced by the sentinel as `InsertLog.InsertedKey` states |
| AutoInsert.AutoInsertHandler.FinishInsert | src/layer_utils.cpp:224-234 | the collected prefix is inserted, counters reset, lock released |
| AutoInsert.AutoInsertHandler.EndModify | src/layer_utils.cpp:207-213 | a modify section drops the collection |
| InsertHeuristic.MeanIsAverage | src/insert_heuristic.cpp:87-98 | the incrementally tracked mean is the average of the window in every reachable state; the window is the one of `HeuristicSamples.WindowIs` |
| InsertHeuristic.RunInv | src/insert_heuristic.cpp:148-213 | phase, counters and the tail of the answers fit together in every reachable state |
| InsertHeuristic.InsertRunLength | src/insert_heuristic.cpp:163-171 | every run of positive answers that has ended has exactly the configured length |
| InsertHeuristic.InsertRunBound | src/insert_heuristic.cpp:163-171 | none is ever longer |
| InsertHeuristic.GapLength | src/insert_heuristic.cpp:148-213 | two runs are separated by at least one more than the smaller of window size less one and the unsteady limit |
| InsertHeuristic.GapReached | src/insert_heuristic.cpp:148-213 | for every configuration and all limits, runs that attain both a gap of one more than the unsteady limit and one of a window |
| InsertHeuristic.FirstInsert | src/insert_heuristic.cpp:153-162 | the first positive answer comes after exactly a window of samples |
| InsertHeuristic.OutlierIs | src/insert_heuristic.cpp:174-175 | the test on squares is the test on the distance from the mean in standard deviations |
| InsertHeuristic.UnsteadyAreOutliers | src/insert_heuristic.cpp:172-191 | the unsteady count is a number of consecutive outliers, of the statistics then and of the present ones |
| InsertHeuristic.SteadyEnds | src/insert_heuristic.cpp:172-191 | the steady phase ends if and only if that many samples in a row were outliers, and then with inserts |
| HeuristicSamples.WindowIs | src/insert_heuristic.cpp:87-98 | in every reachable state the window holds the last recorded samples, at their places |
| HeuristicSamples.StatsAre | src/insert_heuristic.cpp:87-116 | the mean times the number of those samples is their sum, and the variance times one less is the sum of their squared distances from it |
| HeuristicSamples.OutlierIff | src/insert_heuristic.cpp:174-175 | what counts as an outlier is decided by those samples alone |
| HeuristicSamples.UnstableDecides | src/insert_heuristic.cpp:192-208 | after a run of inserts the collection starts anew if and only if the sample is an outlier and the draw is above the Chebyshev bound; otherwise the steady phase follows |
| HeuristicSamples.StartEnds | src/insert_heuristic.cpp:153-162 | a collection ends, with inserts, exactly when it has a window of samples |
| HeuristicSamples.AnswersInserts | src/insert_heuristic.cpp:148-213 | the answer is yes exactly in the insert phase |
| InsertHeuristic.StatisticalInsertHeuristic.InsertNeeded | src/insert_heuristic.cpp:148-213 | a call moves its own table as the state machine says and no other; an unknown table is refused |
| InsertHeuristic.StatisticalInsertHeuristic.UpdateDistribution | src/insert_heuristic.cpp:87-116 | the slots of the window, the tracked mean and the loop for the variance give the window, mean and variance that `HeuristicSamples.StatsAre` ties to the samples |
| WorkerGroup.StepInv | src/thread_pool.cpp:184-216 | what was taken is running on one worker or finished once; exits match the terminators taken |
| WorkerGroup.RunInv | src/thread_pool.cpp:119-216 | so in every reachable state |
| WorkerGroup.ShutdownCompletes | src/thread_pool.cpp:119-139 | when all workers have exited, everything submitted before the shutdown has run exactly once |
| WorkerGroup.LateTasksNeverRun | src/thread_pool.cpp:141-154 | with a terminator per worker nothing submitted after the shutdown ever runs; `WorkerGroup.NeverRunsLateIff` has the converse |
| WorkerGroup.NeverRunsLateIff | src/thread_pool.cpp:141-154 | in every reachable state nothing submitted after the shutdown has run, if and only if there is a terminator for every worker |
| WorkerGroup.LateTaskRuns | src/thread_pool.cpp:184-216 | with fewer, a run in which such a task runs |
| WorkerGroup.PoolRunsLateIff | src/thread_pool.cpp:309-332 | in a pool nothing runs late if and only if all workgroups have the same size |
| WorkerGroup.TooFewStops | src/thread_pool.cpp:317-326 | with fewer terminators than workers the shutdown never completes |
| WorkerGroup.CanExit | src/thread_pool.cpp:119-139 | with enough terminators it can complete from every state |
| WorkerGroup.NoDeadlock | src/thread_pool.cpp:194-203 | no state in between is without a next step |
| WorkerGroup.EnoughStopsIff | src/thread_pool.cpp:317-326 | the average number of terminators is enough for every workgroup if and only if all have the same size |
| WorkerGroup.NeverHangsIff | src/thread_pool.cpp:119-139 | from every reachable state of a workgroup all its workers can still exit if and only if there is a terminator for each |
| WorkerGroup.PoolExitsIff | src/thread_pool.cpp:309-332 | that holds of all workgroups of a pool if and only if all have the same size |
| BurstSubmit.ShareExact | include/thread_pool_base.hpp:182-202 | every index of a batch goes to its target workgroup and to no other |
| BurstSubmit.ShareAscends | include/thread_pool_base.hpp:182-202 | in submission order and never twice |
| BurstSubmit.Pool.SubmitN | include/thread_pool_base.hpp:182-202 | the burst loop gives every workgroup its share, fills exactly as many results as there are tasks, and returns the next index |
| BurstSubmit.Pool.SubmitGroup | src/thread_pool.cpp:156-182 | consecutive indices are queued and their results stored |
| TensorFile.ShapeWordInjective | src/serialization.cpp:258-267 | the packed shape word determines an accepted shape |
| TensorFile.HeaderIs | include/serialization.hpp:109-123 | the twelve bytes of the header |
| TensorFile.RecordIs | src/serialization.cpp:223-233 | every byte of an entry: little-endian digits of shape, name, position of the next entry and length, in this order |
| TensorFile.SizeFits | src/serialization.cpp:226-227 | the size of an accepted shape fits 64 bits |
| TensorFile.EntryRoundTrip | include/serialization.hpp:123-136 | an entry is recovered from its bytes |
| TensorFile.RoundTrip | src/serialization.cpp:203-256 | loading a name from a written file gives the data of the first tensor with it, reports a wrong size, or finds nothing, and always ends |
| TensorFile.LoadsTensor | src/serialization.cpp:203-256 | asking for a written tensor with its rows, columns and element size gives its data, unless an earlier one has the name |
| TensorFile.DivergesIff | src/serialization.cpp:235-256 | the modelled search reports no end if and only if the chain of entries comes back to a position, and if and only if it goes on for ever |
| TensorFile.LoadEndsIff | src/serialization.cpp:235-256 | on every file, loading never ends if and only if the header is right and the chain from its end comes back to itself before the name |
| TensorFile.ForwardEnds | src/serialization.cpp:235-256 | the search ends if the entries on its way point forward, whatever else the file holds |
| TensorFile.SelfLoop | src/serialization.cpp:250-253 | a file of 44 bytes on which loading never ends |
| TensorStream.Stream.WriteHeader | src/serialization.cpp:203-210 | the header replaces the first 12 bytes |
| TensorStream.Stream.WriteTensor | src/serialization.cpp:223-233 | an accepted tensor is appended as one record; a refused one writes nothing |
| TensorStream.Stream.WriteAll | src/serialization.cpp:203-233 | any sequence of writes produces the file that the round trip is about |
| TensorStream.Stream.LoadTensor | src/serialization.cpp:235-256 | the read and seek loop gives the result of the search on every file on which that ends |
| BufferCoherence.BufferWrapper.AccessBuffer | include/buffer_wrapper.hpp:48-91 | allocation, aliasing, copy and refusal of an access, and nothing changed by a refused one |
| BufferCoherence.UnregisteredIsHost | include/buffer_wrapper.hpp:54-57 | a first access to unregistered memory is one to host memory, shared |
| BufferCoherence.CopyReturnsCurrent | include/buffer_wrapper.hpp:77-91 | an access with a copy returns the content accessed last |
| BufferCoherence.RunSound | include/buffer_wrapper.hpp:48-91 | in every reachable state the buffers a caller knows to hold the latest content do |
| BufferCoherence.LatestReturned | include/buffer_wrapper.hpp:48-91 | if every access without a copy is followed by a write, every other access returns what was written last |
| BufferCoherence.LatestIff | include/buffer_wrapper.hpp:48-91 | as long as contents can be told apart, the returned buffer holds the latest one if and only if the caller knows it to |
| BufferCoherence.SkippedCopyLoses | include/buffer_wrapper.hpp:77-91 | three accesses that lose a write |
| BufferCoherence.ConstHolds | include/buffer_wrapper.hpp:76-84 | all buffers of a constant wrapper always equal the original |
| BufferContents.RunShows | include/buffer_wrapper.hpp:48-91 | in every reachable state the content of every kind of memory is what the accesses and writes so far, and nothing else, determine |
| BufferContents.RefusedIff | include/buffer_wrapper.hpp:51-76 | an access is refused if and only if it names memory not yet present, and that is managed memory or a constant wrapper is not asked for the content |
| BufferContents.WrittenIsRead | include/buffer_wrapper.hpp:77-91 | what is written is what every later access with a copy gives, until something else is written or accessed without a copy |
| ParallelFor.OwnerExists | cpu_ops/cpu_pooling.h:116-122 | every item belongs to a range |
| ParallelFor.OwnerUnique | cpu_ops/cpu_pooling.h:116-122 | and to no other |
| ParallelFor.ParallelIsSequential | cpu_ops/cpu_pooling.h:116-180 | whatever the interleaving, each active item holds its own result and nothing else is touched |
| ParallelFor.CutCovers | cpu_ops/cpu_pooling.h:116-118 | the ranges cover all items for every number of workers |
| ParallelFor.CutIsEven | cpu_ops/cpu_pooling.h:116-118 | with at most one task per worker and the fewest items per task that allow it |
| ParallelFor.GatherCovers | cpu_ops/cpu_gather.h:36-38 | so do the aligned ranges of a gather |
| ParallelFor.GatherIsEven | cpu_ops/cpu_gather.h:36-38 | the ranges of a gather are whole mask words, and one word less would not do |
| ParallelFor.GatherReadsOwnBit | cpu_ops/cpu_gather.h:40-56 | because ranges start at a mask word, the bit a gather reads is that of its own key |
| LinearGather.GatherIsExact | cpu_ops/cpu_gather.h:36-63 | each key whose bit was clear gets its row and nothing else changes, for every number of threads |
| LinearGather.MarkHits | cpu_ops/cpu_gather.h:65-78 | the mask words afterwards, with the partial last word and no write beyond it |
| LinearGather.AllMarked | cpu_ops/cpu_gather.h:65-78 | every key counts as a hit |
| Pooling.PoolBag | cpu_ops/cpu_pooling.h:131-176 | the accumulation loops give the values that `PoolingLaws.PooledIsPool` characterizes; empty bags and zero weight sums give zero rows |
| Pooling.PoolTask | cpu_ops/cpu_pooling.h:120-177 | a range of bags is written in place, each with its pooled row |
| Pooling.UnweightedTotal | cpu_ops/cpu_pooling.h:165-171 | the plain mean is the weighted one with unit weights |
| Pooling.SingleKeyBag | cpu_ops/cpu_pooling.h:303-328 | a bag of one key of weight one is the decoded row of that key, in every mode; the concatenation loop is `HostKernels.ConvertRange` |
| PoolingLaws.PooledIsPool | cpu_ops/cpu_pooling.h:131-176 | in every mode, for bags of any size: the value, times the count or the total weight for a mean, is the sum of the decoded values or of their products with the weights; zero for an empty bag and for weights that add up to zero |
| PoolingLaws.PoolUnique | cpu_ops/cpu_pooling.h:131-176 | there is only one such number |
| PoolingLaws.EqualRows | cpu_ops/cpu_pooling.h:131-176 | equal values pool to that value under both means, to the count or the total weight times it under the sums |
| PoolingLaws.MeanBetween | cpu_ops/cpu_pooling.h:131-176 | a mean lies between the least and the largest value, and so does a weighted one with weights that are not negative |
| PoolingLaws.UnitWeights | cpu_ops/cpu_pooling.h:131-176 | sum and mean are the weighted forms with unit weights |
| PoolingLaws.DecodesQuantized | cpu_ops/cpu_pooling.h:29-45 | decoding undoes quantization with scale and offset |
| PoolingLaws.DecodesFloats | cpu_ops/cpu_pooling.h:29-45 | float rows are their values |
| PoolingLaws.DecodesTable | cpu_ops/cpu_pooling.h:29-45 | by table type: value, value times scale, or value times scale plus offset, with the scale and offset at the end of the row |
| HostLookup.FixedBags | src/host_embedding_layer.cpp:151-156 | fixed bags use up the keys exactly |
| HostLookup.FillIsEffective | src/host_embedding_layer.cpp:211-254 | after gather and fill every key's row is the table's, else the default, else what the buffer held |
| HostLookup.LookupIsSpec | src/host_embedding_layer.cpp:84-282 | for all key and worker counts, layouts, modes, formats and interleavings the output is the reduction of those rows; same-type concatenation passes raw rows through |
| PoolingLaws.LookupPools | src/host_embedding_layer.cpp:84-282 | for every interleaving of both stages, every value of every output row of a reduction is the pool of the decoded table, default or earlier rows of its bag |
| PoolingLaws.ConcatenateIs | src/host_embedding_layer.cpp:84-282 | a concatenation passes raw rows through exactly if the output type is the table type, given or by default, and decodes them otherwise |
| PoolingLaws.RefusedIff | src/host_embedding_layer.cpp:84-160 | a lookup is refused if and only if there are no keys, the table type is not known, or output type or bags are not acceptable |
| PoolingLaws.OutputCountIs | src/host_embedding_layer.cpp:130-160 | offsets are one more than output rows, fixed bags use up the keys, otherwise there is a row for each key |
| HostLookup.EffectiveOk | src/host_embedding_layer.cpp:96-160 | rows of the right size, weights and offsets within the keys are all that this needs of a query |
| HostKernels.RangeIsSteps | cpu_ops/cpu_pooling.h:120-177 | a loop over a range does what the steps of the range do, one after the other; that other ranges may come in between is `ParallelFor.ParallelIsSequential` |
| HostKernels.FillJobIs | src/host_embedding_layer.cpp:234-238 | the fill stage of the lookup is cut and filled as its loops assume, for every number of workers |
| HostKernels.PoolJobIs | cpu_ops/cpu_pooling.h:116-122 | so is the output stage |
| HostKernels.FillRange | src/host_embedding_layer.cpp:241-252 | the default fill loop writes exactly the missed keys of its range |
| HostKernels.PoolRange | cpu_ops/cpu_pooling.h:120-177 | the pooling loop of a range writes exactly its bags, as the lookup stage has them |
| HostKernels.ConvertRange | cpu_ops/cpu_pooling.h:303-328 | the conversion loop of a range writes exactly its decoded rows |
| HostKernels.LinearGathered | cpu_ops/cpu_gather.h:36-63 | gathering from a linear table, for every number of threads and interleaving, leaves the rows that the lookup goes on with |
| HostKernels.PartitionedGathered | include/stl_map_backed_table_detail.hpp:416-534 | so does the lookup of a partitioned table, and its bits say which keys missed |
| StaleRows.MissShows | src/host_embedding_layer.cpp:184-282 | two scratch buffers that differ at one missed key that matters give different outputs |
| StaleRows.StaleIff | src/host_embedding_layer.cpp:184-282 | the output does not depend on old buffer contents if and only if there is a default row or no missed key matters |
| StaleRows.StaleExample | src/host_embedding_layer.cpp:184-282 | a query of one missing key whose output is what the buffer held |

## Left out

- CUDA kernels, streams and events as calls: the lookup kernel is its documented contract, an event the set of kernels it
  recorded.
- Overlapping `update` calls on one slot: one modify runs at a time, as the code's own comment asks.
- Custom flows: the model lets several hold the reader side at once; the code's single lock object allows one, which is a
  special case.
- Byte representation of rows in the cache and of metadata in a slot: a row is a value and a metadata word one cell.
- Metadata updates by concurrent lookups of one key: only the order used at an eviction matters; `SlotTable` has them as
  steps between other operations, `ParallelFind` leaves them out.
- Value sizes reported by a lookup: always the largest value size.
- `update_accumulate` of the host tables: its kernel combines a row with an update in place of the copy that `update` makes.
- PartitionedBatch.BatchIsSequential: an insert batch is assumed not to make a partition overflow (`HasRoom`), since which keys
  an eviction keeps depends on how the keys are partitioned.
- SlotTable.RunRefines: the keys that an eviction keeps are taken from the table; which they are is stated by
  `SlotTable.EvictOk` and `SlotTable.EvictsSmallest`.
- CacheRuns.StepRefines: the abstract insert leaves open which of the offered keys win; `InsertWinners.StepWinners` and
  `InsertStakes.WinsIff` state it for keys whose stake is not tied.
- InsertIdeal.IdealIff: priorities and counters are not negative, as relative frequencies and their sums are, and the keys of
  a batch are different and in descending order, as the interface asks.
- InsertForecast.ForecastIff: counters that are tied are left out, since the order of the ways then decides who gives way;
  `InsertIdeal.IdealIff` includes them.
- CacheRuns.RunRefines: inherits that choice from its steps.
- SetCache.SetCache.Invalidate: the slot index is unbounded, which is the code's 32-bit one for up to 2^29 sets
  (`KeyHash.SlotIndexAgrees`).
- AutoInsert.BatchIsCollection: a throw inside the table's insert, which would also keep the lock, is not modelled.
- BurstSubmit.Pool.SubmitN: workgroup numbers are not negative and a results array is given.
- TensorStream.Stream.LoadTensor: requires that the search ends; on the other files, those of `TensorFile.LoadEndsIff`, the
  code loops. A header shorter than 12 bytes
  counts as a mismatch, where the code compares uninitialised numbers.
- BufferCoherence.LatestReturned: two wrappers with the same name share buffers of their context; one wrapper is modelled.
- Pooling.PoolBag: numbers are real; rounding and conversion between float widths are left out. CSR offsets lie within the
  gathered rows, which the kernel does not check.
- HostLookup.LookupIsSpec: byte strides and their checks, the copy back to device output, and the hit rate are left out.
- InsertHeuristic.GapLength: float drift of the mean and the random generator are left out; a draw is an input.
- HeuristicSamples.UnstableDecides: the Chebyshev bound that the configured number of deviations gives is an input.
- The other heuristics, thread naming, NUMA binding, the C interface, JSON configuration, plugins, logging, the Python layer,
  NumPy headers, GPU tables and the hierarchical and linear layers: plumbing, or easy members only.
