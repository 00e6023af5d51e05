# A verified model of an actor-based LRU cache library

This project models the core of a Go library of least-recently-used caches:

- the **eviction store** (`lru_cache.go`): a doubly linked recency list beside a key
  map, a capacity (0 means unbounded), and put / get / remove / removeOldest /
  removeElement / len / clear;
- the **basic cache** (`lru.go`): a client facade whose every call is one request to
  an actor goroutine that owns the store; requests are refused once the cache is
  closed, time out after a configurable duration, and fail when the caller's
  context is done;
- the **loading cache** (`lru_with_load.go`): a basic cache whose GetBatch asks a
  caller-supplied loader for every key that missed or failed, merges the loaded
  values into the results and writes the good ones back in the background;
- the **partitioned cache** (`lru_by_partition.go`): a router that sends every key
  to the delegate cache of the partition a partitioner names, groups a batch by
  delegate, and fans a batch out to its delegates.

Dafny files and modules:

| file | module | contents |
|---|---|---|
| `common.dfy` | `CacheTypes` | values (nil or a payload), the library's errors, results, wait outcomes |
| `lru_cache.dfy` | `LruModel`, `LruCache` | the store as a value with its laws; the store as a class proved against it |
| `lru.dfy` | `Lru` | the actor's request handlers as steps of a state machine; the `BasicCache` class |
| `lru_with_load.dfy` | `LruWithLoad` | the loader's protection, missing-key collection, the merge, the write-back list; the `LoadingCache` class |
| `lru_by_partition.dfy` | `LruByPartition` | table construction, key resolution, grouping, gathering; the `PartitionedCache` class |

Modelling choices:

- Go's untyped values become `Value<T> = Nil | Val(T)`, so the nil checks of the
  source are explicit. The library's exported errors are the constructors of `Error`.
  Errors from caller code are `External(detail)`. The "unexpected error: ..."
  errors made from recovered panics are `Unexpected(detail)`.
- The store's list and map become a `seq` of keys (front = most recent) and a `map`.
  `LruModel.Inv` ties the two together: the list is duplicate-free, holds exactly
  the map's keys, and is within capacity.
- The actor serves one request at a time, so each request is one transition of the
  store (`Lru.GetBatchStep`, `Lru.PutBatchStep`, `Lru.RemoveStep`, `Lru.LenStep`).
- How the caller's wait ends is given as a parameter. A `Wait` is a reply, the
  timeout, or the context ending. A `Deadline` is used for calls without a context.
  Both record whether the actor had already applied the request.
- A closed cache is a `closed` flag on `BasicCache`. Closing clears the store.
- The loader is a function from the loader keys to what it does: return results
  and an error, or panic. A partitioner is a function from keys to a partition name
  or an error.
- Delegate caches are opaque handles `C`. What a delegate answers is passed in as
  a function of the handle and the request.

## Model

| member | source | states |
|---|---|---|
| `CacheTypes.FirstResult` | lru.go:69-78 | Get is GetBatch of one key: an error is passed through with (nil, false); an empty batch gives ErrUnknown; otherwise the first result's value, hit flag and error |
| `LruModel.Get` | lru_cache.go:50-59 | get: a stored key yields its value with ok set and moves to the front of the list; a missing key yields (nil, false) and changes nothing |
| `LruModel.RemoveElement` | lru_cache.go:82-86 | removeElement: the key is unlinked from the list and deleted from the map |
| `LruModel.RemoveOldest` | lru_cache.go:72-80 | removeOldest: the back of the list is removed with its map entry; an empty store is left alone |
| `LruModel.Remove` | lru_cache.go:62-69 | remove: a stored key is removed from list and map; an absent key changes nothing |
| `LruModel.Put` | lru_cache.go:32-47 | put: a stored key takes the new value and moves to the front; a new key is pushed to the front and, when the capacity is non-zero and the list now exceeds it, the back entry is removed |
| `LruModel.Without` | lru_cache.go:82-86 | unlinking a key from the recency list removes exactly that key, keeps the list duplicate-free and shortens it by one when present |
| `LruModel.RemoveElementConsistent` | lru_cache.go:82-86 | removeElement deletes the key from both list and map, keeping them consistent and shrinking len by one |
| `LruModel.RemoveOldestConsistent` | lru_cache.go:72-80 | removeOldest drops exactly the back of the list (and its map entry), keeping list and map consistent |
| `LruModel.PutInv` | lru_cache.go:32-47 | put preserves the store invariant: duplicate-free list, list keys equal map keys, len within a non-zero capacity |
| `LruModel.GetInv` | lru_cache.go:50-59 | get preserves the store invariant |
| `LruModel.RemoveInv` | lru_cache.go:62-69 | remove preserves the store invariant |
| `LruModel.RemoveOldestInv` | lru_cache.go:72-80 | removeOldest preserves the store invariant |
| `LruModel.LenIsMapSize` | lru_cache.go:89-94 | the list length reported by len equals the number of mapped keys |
| `LruModel.GetAfterPut` | lru_cache.go:32-59 | after put(k, v), get(k) returns (v, true), whatever the capacity |
| `LruModel.GetAfterRemove` | lru_cache.go:50-69 | after remove(k), get(k) returns (nil, false) and changes nothing |
| `LruModel.PutExisting` | lru_cache.go:37-41 | put of a stored key replaces its value, moves it to the front and keeps len |
| `LruModel.PutNewUnbounded` | lru_cache.go:42-46 | with capacity 0 a new key is pushed to the front and nothing is evicted |
| `LruModel.PutNewEvictsBack` | lru_cache.go:42-46 | a new key into a full store goes to the front and exactly the least recently used key is evicted; len stays at capacity |
| `LruModel.PutNewBelowCapacity` | lru_cache.go:42-46 | a new key into a store below capacity is pushed to the front and nothing is evicted |
| `LruModel.GetMovesToFront` | lru_cache.go:50-59 | get hits iff the key is stored; a hit returns the stored value and moves the key to the front; no key or value changes; a miss changes nothing |
| `LruModel.RemovalsOfNothing` | lru_cache.go:62-80 | remove of an absent key and removeOldest of an empty store leave the store unchanged |
| `LruModel.PutsOfOneKey` | lru_cache_test.go:98-122 | repeated puts of one key leave a single entry holding the last value |
| `LruModel.DistinctInsertsKeepNewest` | lru_cache_test.go:172-206 | inserting distinct keys into an empty store of capacity n keeps exactly the newest min(n, count) keys, most recent first |
| `LruModel.PutKeepsOthers` | lru_cache.go:32-47 | put leaves every other key and its value in place, except the back entry evicted for a new key |
| `LruModel.PutEntries` | lru_cache.go:32-47 | the map after put is the old map with the key set to the value, less the back key exactly when a new key meets a full non-zero capacity |
| `LruModel.PutOnlyKey` | lru_cache.go:32-47 | a put into a store that is empty or holds only that key leaves a one-entry store with the new value |
| `LruModel.PutAllAppend` | lru.go:218-242 | putting a batch in two parts, one after the other, gives the same store as putting the whole batch in order |
| `LruModel.RecentPutSurvives` | lru_cache.go:37-46 | with a capacity other than 1, a key just put survives the next put of a different key, with its value |
| `LruCache.Store.constructor` | lru_cache.go:23-29 | a new store is empty with the given capacity |
| `LruCache.Store.Put` | lru_cache.go:32-47 | the new list and map are the value-level put of the old ones; the invariant is kept |
| `LruCache.Store.Get` | lru_cache.go:50-59 | returns the value-level get's value and hit flag and moves to its new recency order |
| `LruCache.Store.Remove` | lru_cache.go:62-69 | the new state is the value-level remove of the old one |
| `LruCache.Store.RemoveOldest` | lru_cache.go:72-80 | the new state is the old one without its back entry |
| `LruCache.Store.RemoveElement` | lru_cache.go:82-86 | the key leaves both list and map |
| `LruCache.Store.Len` | lru_cache.go:89-94 | returns the list length, which equals the number of mapped keys, and changes nothing |
| `LruCache.Store.Clear` | lru_cache.go:97-100 | releases list and map: the store is empty, marked released, and still satisfies the invariant |
| `Lru.NormalizeTimeout` | lru.go:305-307 | a non-positive timeout becomes 24 hours; a positive one is kept; the result is positive |
| `Lru.Configure` | lru.go:293-307 | construction succeeds iff the context is live and maxEntries is not negative; the context is checked first |
| `Lru.Served` | lru.go:330-345 | the actor's get handler: one store get per requested key, in request order, each on the store the previous one left, collecting key, value and hit flag |
| `Lru.GetBatchStep` | lru.go:88-132 | GetBatch: a done context gives ErrInvalidContext, then a closed cache ErrAttemptToUseInvalidCache; otherwise the request is served, and the wait decides: the served results on a reply, ErrTimeout on a timeout, ErrInvalidContext on a cancellation, with the store served or not as the wait says |
| `Lru.PutEach` | lru.go:218-242 | the PutBatch loop from entry i: a nil value stops it with ErrInvalidValueToAddToCache, a closed cache refuses with ErrAttemptToUseInvalidCache; otherwise the put handler applies the entry and the wait decides: the next entry on a reply, ErrTimeout or ErrInvalidContext otherwise |
| `Lru.PutBatchStep` | lru.go:185-245 | PutBatch: a done context gives ErrInvalidContext, an empty batch nil without a request; otherwise the loop from the first entry |
| `Lru.RemoveStep` | lru.go:251-280 | Remove: a closed cache refuses with ErrAttemptToUseInvalidCache; otherwise the remove handler removes the key, and a missed deadline gives ErrTimeout with the removal applied or not |
| `Lru.LenStep` | lru.go:137-165 | Len: a closed cache gives (0, ErrAttemptToUseInvalidCache); otherwise the len handler's count, or (0, ErrTimeout) on a missed deadline |
| `Lru.FirstNil` | lru.go:219-223 | the index where PutBatch stops: the first nil value, or the batch length |
| `Lru.ServedResults` | lru.go:330-345 | the get handler returns one result per requested key, in order, with the key, the hit flag iff stored and the stored value; it changes no entry and keeps the invariant |
| `Lru.GetBatchResults` | lru.go:88-132 | GetBatch: a done context gives ErrInvalidContext and a closed cache ErrAttemptToUseInvalidCache, with nothing changed; a timeout gives ErrTimeout and a cancellation ErrInvalidContext, an unserved request leaving the store as it was; a reply holds one result per key, in order, with the key, the stored value (nil on a miss) and a hit flag set exactly when the key is stored; no entry changes in any case |
| `Lru.GetOneKey` | lru.go:88-132 | a one-key GetBatch on an open cache with a live context, answered by the actor, returns the stored value with a hit flag exactly when the key is stored, keeps the invariant and changes no entry |
| `Lru.PutBatchNoRollback` | lru.go:185-245 | PutBatch on an open cache with a live context applies the entries before the first nil value and keeps them when it then fails with ErrInvalidValueToAddToCache (no rollback); a batch without nil values applies every entry in order; an empty batch changes nothing and returns nil |
| `Lru.PutEachFrom` | lru.go:219-242 | the put loop from any entry on applies every entry up to the first nil one |
| `Lru.PutOneKey` | lru.go:171-173 | a one-entry Put fails with ErrInvalidValueToAddToCache for a nil value and changes nothing, fails with ErrAttemptToUseInvalidCache on a closed cache, and otherwise applies exactly that put |
| `Lru.ClosedRejects` | lru.go:50-58 | on a closed cache GetBatch, Remove and Len (with length 0) fail with ErrAttemptToUseInvalidCache and change nothing; PutBatch reports a leading nil value first, and an empty PutBatch succeeds |
| `Lru.GetAfterPutThroughCache` | lru.go:330-359 | a Put answered by the actor followed by a Get of that key returns the value as found |
| `Lru.GetAfterRemoveThroughCache` | lru.go:330-365 | a Remove answered by the actor followed by a Get of that key misses |
| `Lru.LenAfterPutAndRemove` | lru.go:346-365 | from an empty store, Len reports 1 after a put answered by the actor and 0 after removing that key again |
| `Lru.BasicCache.constructor` | lru.go:309-318 | a new cache is open, holds an empty store of the configured capacity and the timeout |
| `Lru.BasicCache.HandleGet` | lru.go:330-345 | the actor's get handler: the results and new store are the served step |
| `Lru.BasicCache.GetBatch` | lru.go:88-132 | result and new store state are the GetBatch transition |
| `Lru.BasicCache.Get` | lru.go:69-78 | the first result of a one-key GetBatch |
| `Lru.BasicCache.PutBatch` | lru.go:185-245 | error and new store state are the PutBatch transition |
| `Lru.BasicCache.Put` | lru.go:171-173 | a one-entry PutBatch |
| `Lru.BasicCache.Remove` | lru.go:251-280 | error and new store state are the Remove transition |
| `Lru.BasicCache.Len` | lru.go:137-165 | length and error are the Len outcome; nothing changes |
| `Lru.BasicCache.Close` | lru.go:50-58 | the cache is closed and the store cleared; closing twice is harmless |
| `Lru.NewBasicCache` | lru.go:293-315 | fails with the configuration's error, otherwise returns an open empty cache with that capacity and timeout |
| `LruWithLoad.Guarded` | lru_with_load.go:174-192 | a loader panic never escapes: it becomes "unexpected error: <detail>" with no results |
| `LruWithLoad.ConfigureLoading` | lru_with_load.go:161-197 | construction fails on a done context, then on a nil loader, then on the basic cache's checks; it succeeds iff none applies |
| `LruWithLoad.MissingKeys` | lru_with_load.go:86-91 | the keys of the results that carry an error or missed, in result order |
| `LruWithLoad.ApplyLoad` | lru_with_load.go:107-116 | one loader result applied to a cache result: an error sets err and clears ok; otherwise the value is taken, and ok is set when it is not nil |
| `LruWithLoad.ToCache` | lru_with_load.go:103-120 | the loader results queued for write-back: those without error and with a non-nil value that matched a result, in loader order |
| `LruWithLoad.LoadStep` | lru_with_load.go:77-133 | after the inner GetBatch: its error passes through, a count mismatch gives ErrUnknown; with no missing keys the results are returned as they are; otherwise the loader is called with the missing keys, its error or a count mismatch fails the call, and else the merged results and the write-back list are returned |
| `LruWithLoad.CollectMissing` | lru_with_load.go:86-91 | the loader keys are the keys of the results with an error or without a hit, in result order |
| `LruWithLoad.MissingKeysExact` | lru_with_load.go:86-93 | no loader keys iff every result is a hit without error; a key is a loader key iff some result for it missed or failed |
| `LruWithLoad.MergeOne` | lru_with_load.go:105-118 | one loader result is merged into the first cache result with its key; lengths and keys are kept |
| `LruWithLoad.FindKey` | lru_with_load.go:105-106 | the merge's search stops at the first result with the loaded key, or past the end when there is none |
| `LruWithLoad.MergeAll` | lru_with_load.go:104-120 | merging every loader result keeps the number of results and each result's key |
| `LruWithLoad.Merge` | lru_with_load.go:103-120 | the merged results and the toCache list equal the value-level merge and filter |
| `LruWithLoad.MergeAllAt` | lru_with_load.go:104-120 | the first result with a key receives all loader results for that key, in loader order; every other result is unchanged |
| `LruWithLoad.ToCacheExact` | lru_with_load.go:106-115 | toCache holds exactly the loader results that matched a result, carry no error and have a non-nil value |
| `LruWithLoad.WriteBackPuts` | lru_with_load.go:126-128 | the write-back performs one put per toCache entry, in order, with its key and value |
| `LruWithLoad.AllHitsUnchanged` | lru_with_load.go:86-93 | when every key hits without error the results come back unchanged and the loader is not called |
| `LruWithLoad.FailuresFailWhole` | lru_with_load.go:77-101 | the inner error, a result count mismatch, the loader's error and a loader count mismatch each fail the whole call, with nothing written back |
| `LruWithLoad.SuccessKeepsShape` | lru_with_load.go:77-133 | a successful call returns one result per requested key, each keeping its key |
| `LruWithLoad.LoadedMissIsFound` | lru_with_load.go:93-133 | a miss the loader fills is returned as found with the loaded value and queued for write-back |
| `LruWithLoad.LoaderFaultSurfaces` | lru_with_load.go:174-192 | a loader panic makes Get return (nil, false, "unexpected error: ...") and queues nothing |
| `LruWithLoad.SecondGetHitsCache` | lru_with_load.go:122-129 | after a loaded miss is written back, the next Get of the key hits the cache with the same value without calling the loader |
| `LruWithLoad.LoadingCache.constructor` | lru_with_load.go:199-202 | wraps the given basic cache and loader |
| `LruWithLoad.LoadingCache.GetBatch` | lru_with_load.go:56-134 | a done context fails with ErrInvalidContext, calling no loader and changing nothing; otherwise the inner GetBatch is the basic cache's transition, and the result, the keys the loader is called with (or that it is not called) and toCache are the loading step applied to its outcome |
| `LruWithLoad.LoadingCache.Get` | lru_with_load.go:38-47 | the first result of a one-key loading GetBatch |
| `LruWithLoad.LoadingCache.WriteBack` | lru_with_load.go:123-129 | an open cache ends in the state after the puts of toCache in order; a closed one is unchanged |
| `LruWithLoad.LoadingCache.Put` | lru_with_load.go:142-144 | delegates to the basic cache's Put |
| `LruWithLoad.LoadingCache.Remove` | lru_with_load.go:147-149 | delegates to the basic cache's Remove |
| `LruWithLoad.LoadingCache.Len` | lru_with_load.go:137-139 | delegates to the basic cache's Len |
| `LruWithLoad.LoadingCache.Close` | lru_with_load.go:33-35 | closes the basic cache |
| `LruWithLoad.NewLoadingCache` | lru_with_load.go:152-203 | fails with the loading configuration's error, otherwise returns a loading cache over an open empty basic cache with capacity maxEntries and the normalised timeout |
| `LruByPartition.ConfigurePartitions` | lru_by_partition.go:221-240 | NewPartitionedCache's checks: a nil partitioner, then an empty list, then the table build |
| `LruByPartition.BuildTable` | lru_by_partition.go:231-240 | building the table fails only with ErrPartitionWithNoCache or ErrPartitionInfoHasDuplicates |
| `LruByPartition.FillTable` | lru_by_partition.go:231-240 | the constructor's loop computes the table build |
| `LruByPartition.TableContents` | lru_by_partition.go:231-245 | a built table has one entry per partition info, maps each name to its cache, and holds nothing else |
| `LruByPartition.TableSize` | lru_by_partition.go:231-240 | a built table has exactly as many entries as there are partition infos |
| `LruByPartition.TableMapsEntries` | lru_by_partition.go:231-240 | a built table maps every info's name to that info's cache |
| `LruByPartition.TableNamesFromEntries` | lru_by_partition.go:231-240 | every name in a built table is the name of some info |
| `LruByPartition.NameInTable` | lru_by_partition.go:231-240 | a name is in a built table iff some info carries it |
| `LruByPartition.WellFormedSnoc` | lru_by_partition.go:231-240 | a list of infos extended by one is well formed iff the prefix is, the new info has a cache and its name is new |
| `LruByPartition.BuildFailureSticks` | lru_by_partition.go:232-238 | once a prefix of the infos fails to build, the whole list fails with the same error: the loop returns at the first bad info |
| `LruByPartition.TableSucceedsIff` | lru_by_partition.go:231-240 | the table builds iff every info has a cache and the names are distinct |
| `LruByPartition.FirstBadEntryDecides` | lru_by_partition.go:232-238 | a failed build names the first bad info: nil-cache error if it lacks a cache, otherwise duplicate-name error |
| `LruByPartition.ConfigureOrder` | lru_by_partition.go:223-240 | a nil partitioner is reported first, then an empty list, then the table errors |
| `LruByPartition.NewPartitionedCache` | lru_by_partition.go:221-246 | fails with the configuration's error, otherwise returns a router over the built table |
| `LruByPartition.CacheForKey` | lru_by_partition.go:34-53 | a resolved cache is one of the table's caches |
| `LruByPartition.ResolutionExact` | lru_by_partition.go:34-53 | an empty table refuses with ErrAttemptToUseInvalidCache; a partitioner error passes through; an unknown name gives ErrInvalidPartition; otherwise the named partition's cache |
| `LruByPartition.RouteResolvesAll` | lru_by_partition.go:124-128 | a successful routing pairs each key, in order, with the cache it resolves to |
| `LruByPartition.RouteFirstFailure` | lru_by_partition.go:124-128 | a failed routing returns the error of the first key that does not resolve, all earlier keys resolving |
| `LruByPartition.RouteFailureSticks` | lru_by_partition.go:124-128 | once a prefix of the keys fails to resolve, routing the whole batch fails with that same error |
| `LruByPartition.Route` | lru_by_partition.go:124-128 | resolves each key in request order, stopping at the first that fails with its error |
| `LruByPartition.GroupIndex` | lru_by_partition.go:130-136 | finds the first group of a cache, or none |
| `LruByPartition.FindGroup` | lru_by_partition.go:130-136 | the search over the groups stops at the first group for the cache, or past the end when there is none |
| `LruByPartition.Groups` | lru_by_partition.go:129-144 | the grouping: each routed key joins the group of its cache, or opens a new group at the end |
| `LruByPartition.PartitionedCache.GroupKeys` | lru_by_partition.go:124-144 | the loop's groups and error equal the routing followed by grouping |
| `LruByPartition.GroupCachesInFirstAppearanceOrder` | lru_by_partition.go:129-144 | groups are distinct caches in order of first appearance among the routed keys, one per cache used |
| `LruByPartition.GroupKeysExact` | lru_by_partition.go:129-144 | each group holds exactly the keys routed to its cache, in key order; the groups hold all the keys |
| `LruByPartition.GroupsDistinct` | lru_by_partition.go:129-144 | no two groups share a cache |
| `LruByPartition.GroupKeysMatch` | lru_by_partition.go:129-144 | each group's keys are the keys routed to its cache, in key order |
| `LruByPartition.GroupTotal` | lru_by_partition.go:129-144 | the groups together hold as many keys as were routed |
| `LruByPartition.Gather` | lru_by_partition.go:156-165 | concatenates the groups' delegate answers in group order, failing with the first delegate error |
| `LruByPartition.PartitionedGetBatch` | lru_by_partition.go:85-166 | a done context gives ErrInvalidContext; otherwise the keys are routed, grouped, each group asked once and the answers gathered |
| `LruByPartition.QueryGroups` | lru_by_partition.go:156-165 | the gathering loop equals the value-level gather |
| `LruByPartition.GatherExact` | lru_by_partition.go:156-165 | gathering succeeds with the concatenation of every group's results in group order, or fails with the first group error |
| `LruByPartition.GatherFailureSticks` | lru_by_partition.go:156-165 | once the groups gathered so far fail, gathering all groups fails with that same error |
| `LruByPartition.PartitionedCache.GetBatch` | lru_by_partition.go:85-166 | result is the partitioned GetBatch: done context, then routing, then one delegate GetBatch per group |
| `LruByPartition.ResolutionErrorQueriesNothing` | lru_by_partition.go:124-128 | a key that does not resolve fails the batch with its error |
| `LruByPartition.OneResultPerKey` | lru_by_partition.go:124-165 | when each delegate answers one result per key, the batch returns one result per requested key |
| `LruByPartition.GetAsksOwnPartition` | lru_by_partition.go:67-76 | Get of a key is its own partition's answer for that key |
| `LruByPartition.PartitionedCache.Get` | lru_by_partition.go:67-76 | the first result of a one-key partitioned GetBatch |
| `LruByPartition.SumLens` | lru_by_partition.go:169-184 | the total of the partitions' lengths over a set of partition names |
| `LruByPartition.SumLensPick` | lru_by_partition.go:175-181 | the sum of partition lengths does not depend on the order the partitions are visited |
| `LruByPartition.PartitionedCache.Len` | lru_by_partition.go:169-184 | with no delegate error, the sum of the partitions' lengths; otherwise 0 and some partition's error |
| `LruByPartition.PartitionedCache.Put` | lru_by_partition.go:187-194 | a key that does not resolve fails with its error; otherwise the resolved delegate's Put answer |
| `LruByPartition.PartitionedCache.Remove` | lru_by_partition.go:197-204 | a key that does not resolve fails with its error; otherwise the resolved delegate's Remove answer |
| `LruByPartition.PartitionedCache.Close` | lru_by_partition.go:56-64 | returns every partition cache (each is closed) and empties the table |
| `LruByPartition.ClosedRouterRefuses` | lru_by_partition.go:34-64 | after Close every key is refused with ErrAttemptToUseInvalidCache, so Get and any non-empty GetBatch fail with it, while a GetBatch of no keys succeeds empty and Len sums nothing |
| `LruByPartition.PartitionedCache.constructor` | lru_by_partition.go:242-245 | holds the partitioner and the table |

## Left out

- Goroutines, channels, `select` and timers are not modelled. Each call's wait is an
  explicit `Wait` or `Deadline` parameter, and the actor's serial loop is one state
  transition per request.
- The actor stopping when its governing context ends is not a separate event. Its
  effect, a closed cache with a cleared store, is what `Lru.BasicCache.Close` models.
- OpenTelemetry spans and events are not modelled: they have no effect on results.
- The loading cache's write-back goroutine is not scheduled. `LruWithLoad.LoadingCache.GetBatch`
  returns the toCache list, and `LruWithLoad.LoadingCache.WriteBack` performs its puts
  when the caller chooses. Interleavings with other requests are not covered.
- The partitioned cache queries its delegates one after another. The concurrent
  fan-out and the `sync.RWMutex` are not modelled.
- Delegate caches are opaque. Their answers are function parameters, and their own
  state changes under Put, Remove and Close are not modelled.
- `LruByPartition.PartitionedCache.Len` visits partitions in an unspecified order, as
  Go's map iteration does. When several delegates fail, the model says only that the
  error is one of theirs.
- Recovered panics from causes other than a send on a closed channel are not modelled:
  the `%v` errors of the basic `Len` and `Remove` (lru.go:144, 258), and the "unexpected
  error" recovery of the basic `GetBatch` and `PutBatch` (lru.go:102, 205), of the loading
  `GetBatch` (lru_with_load.go:67) and of the partitioned `GetBatch` (lru_by_partition.go:96).
  The recovery around the loader (lru_with_load.go:174-192) is modelled by
  `LruWithLoad.Guarded`. The panic string comparison for a send on a closed channel is
  modelled as the `closed` flag.
- The `!ok` branches returning ErrUnknown when a reply channel is closed early are
  not modelled: the actor never closes a reply channel.
- Lru.GetBatchStep, Lru.PutEach, Lru.RemoveStep and Lru.LenStep: the model lets the cache
  carry on after a `TimedOut`, `Cancelled` or `Missed` outcome. The request is applied or not,
  as `serviced` says. The code does not carry on. Each client call closes its reply channel
  when it returns (lru.go:114, 150, 217, 264). A reply the actor sends afterwards
  (lru.go:345, 351, 359, 365) is then a send on a closed channel. An unserved request is still
  served later, so its reply also comes too late. The actor goroutine has no recover of its own.
  The recover in Close (lru.go:50-58) is not called by the unwinding panic, so it does not
  stop it. Read as written, a late reply would crash the process. The model leaves that crash
  out.
- LruByPartition.PartitionedCache.GetBatch: the same holds for the fan-out. Its buffered result
  channels are closed when the call returns (lru_by_partition.go:118-122), for example on the
  first delegate error. A fan-out goroutine still running would then panic on its send. The
  model queries the delegates one after another and leaves that out.
- `interfaces.go` declares only the `Cache` interface. It is not part of this model; the
  classes expose the same operations. The `privateImp` type embedded in `BasicCache` and
  `LoadingCache` (lru.go:41, lru_with_load.go:27) is defined in none of the files modelled
  here and is not part of this model.
- `time.Duration` and `int` are unbounded integers here. The library never does
  arithmetic on them that could overflow.
- `container/list` internals (element pointers, sentinel ring) are represented by
  the key order they encode.
- Contexts are reduced to whether they are already done. The context argument of
  `NewPartitionedCache` is unused by the source and not modelled.
- The loading cache's Put calls the basic cache's Put without a context argument, which
  does not match that method's signature. The model calls it with a live context.
- `LruByPartition.PartitionedCache.Put`: the delegate's answer is a parameter; the
  delegate's store contents after the put are not stated.
- `LruByPartition.PartitionedCache.Remove`: likewise, the delegate's state is not stated.

Behaviours of the code that the model keeps:

- A partitioned Len after Close returns (0, nil): the emptied table has no
  partition to ask.
- A partitioned GetBatch of no keys succeeds with no results, even on a closed router.
- Partitioned GetBatch results come back grouped by delegate in first-appearance
  order, not in the order of the requested keys.
- The loading merge updates only the first result with a matching key. A later
  successful load does not clear an error recorded by an earlier one.
- An empty PutBatch returns nil without asking the actor, even on a closed cache.
