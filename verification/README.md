# Memogent memory engine: a verified model

This project models the memory-management engine of Memogent in Dafny and proves what its caches,
planners and predictors promise over whole runs. `dafny verify dfyconfig.toml` checks all of it.

**Adaptive caches.** ARC and ContextARC are state machines on values (`ArcSpec`), with what each
call does to lists, target and counters (`ArcPolicy`) and theorems about every run: directory bounds
and fullness (`ArcInvariants`, `ArcAccounting`), recency against a clock (`ArcRecency`), resizing in
both directions (`ArcResizing` for the residents, `ArcDirectory` for the ghosts), capacity 0
(`ArcZeroCapacity`), scan resistance and what a hint protects (`ArcScan`), agreement with a plain
map (`ArcAsMap`). Two implementations are proved to take the same steps: the C++ cache, two linked
lists with an index of iterators each (`ArcCache`, `EntryLists`), and the Python cache on
OrderedDicts with its cold pre-warm (`PyArcCache`, `OrderedDicts`, `ContextArc`) and its ordered
ghosts (`GhostQueues`). LRU (`LruSpec`, `LruCache`, `PyLruCache`) has two theorems on traces: stack
inclusion (`LruTraces`) and competitiveness in the form of Sleator and Tarjan (`LruCompetitive`).
LFU (`LfuSpec`, `LfuCache`) evicts the same entry in whatever order its store is scanned.

**Planners.** The KV-cache plan (`KvSpec`, `KvCache`) and the model-swap plans (`ModelSwap`) rest on
one theory of sorting by rank and taking a covering prefix (`Greedy`): safe, minimal and bottleneck
optimal for every order that an unstable sort of a hash map's entries can produce.

**Predictors and log.** Count tables as functions of the log, flow conservation and score mass
(`Markov`, `MarkovBigram`, over `Tallies` and `Predictions`), the bounded history of the
most-recently-used predictor (`MostRecent`), the event log (`EventLog`), and the facade that keeps
predictor and log in step over every sequence of calls (`OrchestratorSpec`, `Orchestrator`).

## How the model is set up

- A run is a sequence of calls. A `Put` carries `pick`, the ghost key that the call forgets if it has
  to forget one; every theorem holds for every `pick`. C++ takes `*begin()` of a hash set, so any
  ghost; Python pops the end of an OrderedDict, so its newest.
- A `std::list` is a sequence of slots with the nodes it owns, and an iterator is a slot. The index
  maps of the C++ caches are maps from keys to slots.
- A ghost hit erases the ghost by key. The C++ code keeps an iterator into a hash set across an
  insertion into the same set; that this iterator stays good is not part of this model.
- Iteration over a hash map, and a sort that may reorder equal elements, are loops that pick any
  remaining element. Scores, salience and timestamps are reals.
- Contracts of class methods name the abstract step (`View() == OnPut(old(View()), ...)`);
  the properties are the lemmas about runs of steps.

## What the code does where its documentation or tests suggest otherwise

- The tests expect an ARC cache never to hold more than its capacity. After a shrink it can hold one
  more (`OverflowIsReachable`). `PutOverflows` says exactly which puts leave it so, `OverflowPersists`
  that no lookup, put or hint brings it back, and `BoundsUnderResizing` that it is never more than one.
- The paper's ARC never remembers more than twice its capacity. The code forgets a ghost of `b2` only
  when the directory holds exactly that many keys, and `resize` forgets none, so any shrink of a full
  directory, as when a tick takes a slot back, passes the bound (`ShrinkOverflowsDirectory`; `Fits` and
  `StepKeepsBounds` say exactly which resizes do not). From then on no put forgets a ghost of `b2`
  (`B2GhostsStay`), and the ghosts grow without bound (`DirectoryNeverShrinks`, `GhostsGrow`,
  `DirectoryIsUnbounded`).
- The paused power mode resizes the model cache to 0. At capacity 0 every put to the C++ ARC cache
  still leaves a resident, and evictions do not make up for it (`PutAtZero`, whatever ghosts the
  resize left behind). In a cache built at 0, `t2` loses keys to erase and clear only (`ZeroCapacity`,
  `StepAtZero`), so it can grow without bound (`ZeroCapacityGrows`). The Python cache raises KeyError
  for a new key when `t1` is empty.
- The paper's ARC forgets its least recent ghost. C++ forgets whichever ghost the hash set yields;
  Python forgets the most recent of its list, the paper's choice only if there is no other
  (`ForgetsTheMostRecent`).
- The KV planner's recent tail is protected only when the budget is at least the recent window
  (`TailTestExact`); below it the difference wraps and, unless the window exceeds the budget by almost
  2^64, nothing is protected (`TailTestVanishes`). A block whose 32-bit end wraps can slip through
  (`TailTestOfBlock` says which).
- Observing a tracked KV block again adds its tokens to the total and never takes the old ones off
  (`TotalIsTrackedPlusStale`, `ObservedAgain`).
- LRU's misses are bounded by what a schedule loads (`Competitive`). The bound in terms of the
  schedule's misses holds for schedules that load on demand (`CCompetitive`); for schedules that may
  fetch ahead it holds at capacity 1 and at no other (`BoundedByMissesExactly`). No factor below the
  capacity would do (`FactorIsTight`).
- Stack inclusion needs a put after each missed lookup (`LookupsAloneBreakInclusion`);
  `LookupKeepsInclusion` says exactly which lookups do without.

## Model

| member | source | states |
|---|---|---|
| ArcInvariants.DirectoryInvariant | core/src/caches/caches.cpp:200-315 | over every run at any capacities the lists are disjoint; and throughout it t1 with b1 and t1 with t2 fit the capacity, all four lists fit twice the capacity and the target stays within it, if and only if every resize is to a capacity that fits and no put comes at capacity 0 |
| ArcInvariants.GrowingKeepsBounds | core/src/caches/caches.cpp:221-308 | so those bounds hold throughout every run that never shrinks a cache of capacity at least 1 |
| ArcInvariants.ReachableShape | core/src/caches/caches.cpp:200-315 | over every run at any capacities, shrinking and zero included, the four lists stay disjoint and duplicate-free and exactly the residents have a value |
| ArcInvariants.StepKeepsBounds | core/src/caches/caches.cpp:221-308 | exactly which single calls keep the directory bounds |
| ArcAccounting.PutAccounting | core/src/caches/caches.cpp:237-283 | a put of a non-resident key adds one entry and takes one out per eviction counted, except exactly when `replace` is called with no victim in either list; and exactly which puts count an eviction |
| ArcAccounting.ReplaceFindsAVictim | core/src/caches/caches.cpp:325-337 | in a full cache `replace` always removes an entry |
| ArcAccounting.StaysFullAndCountsHonestly | core/src/caches/caches.cpp:237-283 | at a fixed capacity without erase, ghosts appear only once the directory holds `c` keys, from then on exactly `c` keys are resident, and insertions of non-resident keys equal size plus evictions |
| ArcRecency.RecencyOrder | core/src/caches/caches.cpp:200-283 | against a clock stamping every touch, in every reachable state t1 is strictly ordered by insertion and untouched since, t2 by last touch, and every ghost is older than all of the list it fell out of |
| ArcRecency.VictimIsLeastRecent | core/src/caches/caches.cpp:325-337 | what `replace` evicts, at whatever target a ghost hit has adapted, was touched before everything else in its list and after every earlier ghost of that list |
| ArcRecency.PutTakesTheLeastRecent | core/src/caches/caches.cpp:237-283 | any resident that a put takes out, by `replace` or by dropping the end of a full t1, was touched before every other key of its list |
| ArcPolicy.B1HitRaisesTheTarget | core/src/caches/caches.cpp:237-239 | a put of a b1 ghost raises the target by how many whole times b1 goes into b2, at least by one, up to the capacity |
| ArcPolicy.B2HitLowersTheTarget | core/src/caches/caches.cpp:245-248 | a put of a b2 ghost lowers it by how many whole times b2 goes into b1, at least by one, down to zero |
| ArcPolicy.OnlyGhostHitsMoveTheTarget | core/src/caches/caches.cpp:200-315 | no other call moves the target, but clear, which zeroes it |
| ArcPolicy.GhostHitLists | core/src/caches/caches.cpp:237-254 | all four lists after a ghost hit: t1 gives its end to b1 if it is longer than the target just adapted, or as long and the ghost was in b2, otherwise t2 gives its end to b2; the key leaves the ghosts and heads t2 |
| ArcPolicy.NewKeyLists | core/src/caches/caches.cpp:255-283 | all four lists after the put of a new key, which heads t1: when nothing gives way, when t1 loses its end for good, when a ghost of b1 or of b2 is forgotten first, and which list then gives up its end |
| ArcPolicy.TouchLists | core/src/caches/caches.cpp:200-235 | a lookup or overwrite of a resident key makes it the head of t2 and leaves the order of the rest, the ghosts, the target and the evictions alone |
| ArcPolicy.EraseLists | core/src/caches/caches.cpp:285-294 | erasing takes the key out of whichever list holds it, and its value, and nothing else |
| ArcPolicy.CountersMove | core/src/caches/caches.cpp:200-315 | hits count the lookups that find their key, misses those that do not, and only puts and resizes count evictions |
| ArcResizing.BoundsUnderResizing | core/src/caches/caches.cpp:296-308 | over every run, to capacity 0 and back included: whenever the capacity is at least 1, t1 fits it and the residents exceed it by one at most |
| ArcResizing.ResizeTrims | core/src/caches/caches.cpp:296-308 | right after `resize` the residents fit, both lists are prefixes of what they were, t2 is cut only once t1 is empty, nothing more than the excess goes, and ghosts and target stay as they were |
| ArcResizing.PutOverflows | core/src/caches/caches.cpp:237-254 | exactly when a put leaves more residents than the capacity: it held too many already, or t1 alone is full, the key is a ghost, and the adapted target protects all of t1 |
| ArcResizing.OverflowPersists | core/src/caches/caches.cpp:200-283 | no run of lookups, puts and hints brings such a cache back to its capacity |
| ArcResizing.OverflowIsReachable | core/src/caches/caches.cpp:237-244 | a run that ends with two residents at capacity 1 |
| ArcDirectory.PutDirectory | core/src/caches/caches.cpp:221-283 | exactly what a put does to the size of the directory and of t1 with its ghosts |
| ArcDirectory.PutOverflowsDirectory | core/src/caches/caches.cpp:255-280 | exactly when a put leaves more keys in the directory than twice the capacity, and t1 with its ghosts over the capacity; the target passes the capacity only if it had |
| ArcDirectory.DirectoryNeverShrinks | core/src/caches/caches.cpp:200-283 | no run of lookups, puts and hints makes the directory smaller, so an oversized one stays so |
| ArcDirectory.B2GhostsStay | core/src/caches/caches.cpp:270-280 | once the directory is over twice the capacity, no run of lookups, hints and puts of other keys forgets a ghost of b2 |
| ArcDirectory.ShrinkOverflowsDirectory | core/src/caches/caches.cpp:296-308 | every shrink of a full cache with a full directory leaves more than twice the new capacity |
| ArcDirectory.GhostsGrow | core/src/caches/caches.cpp:270-280 | from such a state, putting and reading n new keys adds exactly n of them to the directory, less the lead of t1 and its ghosts over the capacity, while the residents exceed the capacity by one at most: the ghosts grow without bound |
| ArcDirectory.DirectoryIsUnbounded | core/src/caches/caches.cpp:270-308 | a family of runs at capacities 1 and 2 whose directories reach any size |
| ArcZeroCapacity.ZeroCapacity | core/src/caches/caches.cpp:200-293 | over every run of a cache built at capacity 0 and never resized there are no ghosts and t1 holds at most one key |
| ArcZeroCapacity.StepAtZero | core/src/caches/caches.cpp:200-293 | in such a cache nothing but erase and clear takes a key out of t2 |
| ArcZeroCapacity.TouchedKeysStay | core/src/caches/caches.cpp:200-293 | so a key that has reached t2 stays over any run that does not erase it, clear or resize |
| ArcZeroCapacity.PutAtZero | core/src/caches/caches.cpp:221-283 | in every state at capacity 0, ghosts and target left by a shrink included: a put leaves more residents than the capacity and never fewer than before, exactly when it counts an eviction, and exactly which key t2 loses |
| ArcZeroCapacity.ZeroCapacityGrows | core/src/caches/caches.cpp:200-283 | putting and getting any number of distinct keys at capacity 0 leaves all of them resident |
| ArcScan.ScanResistance | core/src/caches/caches.cpp:255-283 | a scan of any length by new keys leaves the target alone and takes at most max(0, p + 1 - size of t1) entries from t2, all from its least recent end; survivors keep their values |
| ArcScan.ScanCost | core/src/caches/caches.cpp:255-283 | in a full cache the scan takes exactly the least of t2, the length of the scan and that bound |
| ArcScan.HintPutsResidentsFirst | core/src/caches/caches.cpp:357-372 | a hint changes nothing but the order: the hinted residents come to the head of t2 in reverse order of last mention, the rest of t2 behind them in its old order |
| ArcScan.HintsProtect | core/src/caches/caches.cpp:348-372 | hinted residents survive, with their values, any scan that t2 is long enough to absorb behind them |
| ArcScan.HintsProtectExactly | core/src/caches/caches.cpp:348-372 | in a full cache the exact condition for every scan: no resident was hinted, or the distinct hinted residents and the lesser of the length of the scan and the deficit fit in t2 |
| CacheTypes.PlainMapHolds | core/src/caches/caches.cpp:42-190 | the plain map holds for a key the value last put for it, unless it was erased or all was cleared since |
| ArcAsMap.AgreesWithPlainMap | core/src/caches/caches.cpp:200-315 | over every run the cache holds a part of what a plain map would hold, with the same values, and hits plus misses count the lookups since the last clear |
| ArcAsMap.StepAgreesWithMap | core/src/caches/caches.cpp:221-283 | each call keeps that agreement, and a put key can be read at once, at any capacity |
| ContextArc.FirstColdIsCold | python/memogent/cache/arc.py:146-156 | the key to pre-warm is that of the first prediction that is not resident and scores at least 0.22, and there is none only if no prediction is such |
| ContextArc.PreWarmIsARun | python/memogent/cache/arc.py:139-158 | a pre-warming hint is the run of a hint and a put of the marker, so every theorem about runs covers it |
| ContextArc.PutEvictsAtMostOne | python/memogent/cache/arc.py:44-84 | one put takes at most one resident out |
| ContextArc.PreWarmTradesOneForOne | python/memogent/cache/arc.py:139-158 | one hint evicts at most one resident, brings in exactly the first cold key, if there is one, holding the marker, and touches no other value |
| ArcCache.ArcCache.Get | core/src/caches/caches.cpp:200-219 | the abstract machine's `get` step, and the value or nothing |
| ArcCache.ArcCache.ReplaceOne | core/src/caches/caches.cpp:325-337 | the abstract machine's `replace` step |
| ArcCache.ArcCache.PutFromB1 | core/src/caches/caches.cpp:237-244 | the step of a ghost hit in b1, target raised first |
| ArcCache.ArcCache.PutFromB2 | core/src/caches/caches.cpp:245-254 | the step of a ghost hit in b2, target lowered first |
| ArcCache.ArcCache.MakeRoomFor | core/src/caches/caches.cpp:255-280 | the evictions of a fresh miss, whichever ghost the hash set yields first |
| ArcCache.ArcCache.Put | core/src/caches/caches.cpp:221-283 | the abstract machine's `put` step for some choice of ghost victim, with both indices exact afterwards |
| ArcCache.ArcCache.Erase | core/src/caches/caches.cpp:285-294 | the `erase` step |
| ArcCache.ArcCache.Resize | core/src/caches/caches.cpp:296-308 | the eviction loop reaches the `resize` step |
| ArcCache.ArcCache.Clear | core/src/caches/caches.cpp:310-315 | the empty state at the same capacity |
| ArcCache.ArcCache.HintFuture | core/src/caches/caches.cpp:357-372 | the loop over predictions reaches the `hint` step |
| PyArcCache.PyArcCache.Get | python/memogent/cache/arc.py:30-42 | the same `get` step as the C++ cache |
| GhostQueues.GhostsAreInOrder | python/memogent/cache/arc.py:44-124 | every run of the Python cache, which pops ghosts from the end and skips the puts that raise KeyError, is a run of the abstract machine, and each ghost list is strictly in the order of last touch |
| GhostQueues.ForgetsTheMostRecent | python/memogent/cache/arc.py:69-82 | a ghost that a put forgets is the one of its list touched last, and is the one touched first exactly if it is the only one |
| PyArcCache.PyArcCache.ReplaceOne | python/memogent/cache/arc.py:117-124 | the same `replace` step; the victim goes to the end of its ghost list |
| PyArcCache.PyArcCache.MakeRoomFor | python/memogent/cache/arc.py:69-82 | the same evictions, with the newest ghost of its list as the one forgotten, and the order of the ghosts that stay; KeyError exactly at capacity 0 with an empty t1 |
| PyArcCache.PyArcCache.Put | python/memogent/cache/arc.py:44-84 | the same `put` step with the newest ghost as the pick, or KeyError with the state unchanged, and exactly when |
| PyArcCache.PyArcCache.Erase | python/memogent/cache/arc.py:86-88 | the same `erase` step |
| PyArcCache.PyArcCache.Resize | python/memogent/cache/arc.py:90-97 | the same `resize` step |
| PyArcCache.PyArcCache.Clear | python/memogent/cache/arc.py:99-105 | the same empty state |
| PyArcCache.PyArcCache.HintFuture | python/memogent/cache/arc.py:139-158 | the hint step followed by the pre-warm of the first cold key, if any; KeyError exactly at capacity 0 with a cold key unknown to the directory and t1 empty after the promotions, which then stay |
| EntryLists.EntryList.PushFront | core/src/caches/caches.cpp:63-64 | list and index gain one entry at the front, and the index still names exactly the entries of the list |
| EntryLists.EntryList.Erase | core/src/caches/caches.cpp:72-73 | list and index lose the entry the index points at |
| EntryLists.EntryList.PopBack | core/src/caches/caches.cpp:98-100 | list and index lose the least recent entry |
| EntryLists.EntryList.MoveToFront | core/src/caches/caches.cpp:50 | the splice changes the order only; every iterator stays good |
| EntryLists.EntryList.Assign | core/src/caches/caches.cpp:59 | a value is overwritten through its iterator |
| LruCompetitive.LruMoves | python/memogent/cache/lru.py:19-36 | one access: a miss of LRU is paid for by the potential it releases |
| LruCompetitive.Amortized | python/memogent/cache/lru.py:19-36 | at every point of every access trace, LRU's weighted misses and the potential are covered by the loads of the schedule |
| LruCompetitive.Competitive | python/memogent/cache/lru.py:19-36 | for all traces, LRU of capacity k against any schedule of capacity h <= k: (k - h + 1) times its misses is at most k times the schedule's loads plus (k - h + 1) k |
| LruCompetitive.CCompetitive | python/memogent/cache/lru.py:19-36 | at equal capacity c, against schedules that load on demand: at most c times the schedule's misses, plus c |
| LruCompetitive.BoundedByMissesExactly | python/memogent/cache/lru.py:19-36 | against all schedules, those that fetch ahead included, that bound holds for every trace if and only if the capacity is 1 |
| LruCompetitive.FetchingAheadBeatsLru | python/memogent/cache/lru.py:19-36 | for every capacity above 1, a trace and a schedule of the same capacity whose misses LRU exceeds beyond that bound |
| LruCompetitive.FactorIsTight | python/memogent/cache/lru.py:19-36 | for every capacity c and length n, a trace on which LRU misses all n accesses and an on-demand schedule of the same capacity at most n / c + c of them, so no factor below c would do |
| LruTraces.ServeOrder | python/memogent/bench/harness.py:90-92 | what one request of a trace does to the list, the hits and the misses |
| LruTraces.StackInclusion | core/src/caches/caches.cpp:42-103 | on the same accesses, writes and erases the list of the smaller cache is a prefix of the larger one's, so hits grow with capacity |
| LruTraces.LookupKeepsInclusion | core/src/caches/caches.cpp:42-52 | a lookup alone keeps the inclusion exactly when the smaller cache is empty, or holds the key, or the larger one does not |
| LruTraces.LookupsAloneBreakInclusion | core/src/caches/caches.cpp:42-52 | runs of two puts and a lookup after which the inclusion fails |
| LruTraces.HoldsTheMostRecent | core/src/caches/caches.cpp:42-103 | after any accesses and writes the cache holds exactly the c most recently requested distinct keys, latest first |
| LruSpec.AgreesWithPlainMap | core/src/caches/caches.cpp:42-103 | over every run: within capacity, agreeing with a plain map, every lookup counted once |
| LruSpec.StepAgreesWithMap | core/src/caches/caches.cpp:54-66 | each call keeps the agreement, and at capacity at least 1 a put key can be read at once |
| LruSpec.StepCounts | core/src/caches/caches.cpp:42-103 | hits, misses and evictions of each call, entry by entry, and that a resize keeps the most recent entries that fit |
| LruCache.LruCache.Get | core/src/caches/caches.cpp:42-52 | the `get` step of the abstract machine |
| LruCache.LruCache.EvictIfOver | core/src/caches/caches.cpp:96-103 | the eviction loop cuts the list to the capacity |
| LruCache.LruCache.Put | core/src/caches/caches.cpp:54-66 | the `put` step |
| LruCache.LruCache.Erase | core/src/caches/caches.cpp:68-74 | the `erase` step |
| LruCache.LruCache.Resize | core/src/caches/caches.cpp:76-80 | the `resize` step |
| LruCache.LruCache.Clear | core/src/caches/caches.cpp:82-86 | the empty state |
| PyLruCache.PyLruCache.Get | python/memogent/cache/lru.py:19-25 | the same `get` step as the C++ cache |
| PyLruCache.PyLruCache.Put | python/memogent/cache/lru.py:27-36 | the same `put` step |
| PyLruCache.PyLruCache.EvictOver | python/memogent/cache/lru.py:34-36 | the same cut to the capacity |
| PyLruCache.PyLruCache.Erase | python/memogent/cache/lru.py:38-39 | the same `erase` step |
| PyLruCache.PyLruCache.Resize | python/memogent/cache/lru.py:41-45 | the same `resize` step |
| PyLruCache.PyLruCache.Clear | python/memogent/cache/lru.py:47-49 | the same empty state |
| LfuSpec.ScanInOrder | python/memogent/cache/lfu.py:73-81 | a scan in any given order finds the entry that precedes all others by (frequency, stamp) |
| LfuSpec.ScanInAnyOrder | core/src/caches/caches.cpp:172-183 | so does a scan whose order is not known |
| LfuSpec.VictimIsUnique | core/src/caches/caches.cpp:172-183 | two entries cannot both precede all others |
| LfuSpec.EvictFacts | core/src/caches/caches.cpp:172-183 | an eviction takes exactly one entry, which precedes all that stay, and leaves them as they were |
| LfuSpec.EvictsTheLeastUsed | core/src/caches/caches.cpp:150-154 | whatever a resize evicts has a smaller frequency, or the same and a smaller stamp, than all that stays |
| LfuSpec.EvictsByUseThenAge | core/src/caches/caches.cpp:131-183 | over every run: whatever a put or a resize evicts had fewer hits and overwrites since its insertion than each entry that stays, or as many and its last use came earlier |
| LfuSpec.StampsAreLastUses | core/src/caches/caches.cpp:118-143 | over every run: of two entries the one with the smaller stamp is the one whose last hit, overwrite or insertion came earlier |
| LfuSpec.StepStamps | core/src/caches/caches.cpp:118-143 | each call stamps at most the key it uses, later than all others, and leaves the other entries that stay as they were |
| LfuSpec.PutEvictsWhenFull | core/src/caches/caches.cpp:131-143 | a put evicts an entry exactly if its key is new and the store is full and not empty |
| LfuSpec.ResizeEvictsTheExcess | core/src/caches/caches.cpp:150-154 | a resize evicts what exceeds the new capacity and no more |
| LfuSpec.AgreesWithPlainMap | core/src/caches/caches.cpp:118-161 | over every run: stamps distinct and not ahead of the tick, at most max(capacity, 1) entries, agreement with a plain map, every lookup counted once |
| LfuSpec.StepAgreesWithMap | core/src/caches/caches.cpp:118-143 | each call keeps the agreement, a put key can be read at once, at any capacity, and hits and misses count the lookups that find their key and those that do not |
| LfuSpec.FrequencyCountsUses | core/src/caches/caches.cpp:118-143 | an entry's frequency is one plus the hits and overwrites since it was inserted |
| LfuCache.LfuCache.Get | core/src/caches/caches.cpp:118-129 | the `get` step of the abstract machine |
| LfuCache.LfuCache.EvictVictim | core/src/caches/caches.cpp:172-183 | the one eviction the abstract machine allows, in whatever order the store is scanned |
| LfuCache.LfuCache.Put | core/src/caches/caches.cpp:131-143 | the `put` step |
| LfuCache.LfuCache.Erase | core/src/caches/caches.cpp:145-148 | the `erase` step |
| LfuCache.LfuCache.Resize | core/src/caches/caches.cpp:150-154 | the `resize` step |
| LfuCache.LfuCache.Clear | core/src/caches/caches.cpp:156-161 | the empty state |
| LfuCache.PyLfuCache.Get | python/memogent/cache/lfu.py:27-36 | the same `get` step as the C++ cache |
| LfuCache.PyLfuCache.EvictMin | python/memogent/cache/lfu.py:73-81 | the same eviction, by the minimum in insertion order |
| LfuCache.PyLfuCache.Put | python/memogent/cache/lfu.py:38-49 | the same `put` step |
| LfuCache.PyLfuCache.Erase | python/memogent/cache/lfu.py:51-52 | the same `erase` step |
| LfuCache.PyLfuCache.Resize | python/memogent/cache/lfu.py:54-57 | the same `resize` step |
| LfuCache.PyLfuCache.Clear | python/memogent/cache/lfu.py:59-62 | the same empty state |
| KvSpec.TailTestOfBlock | core/src/kv_cache/kv_cache.cpp:53-55 | for which blocks, wrapping ones included, the test means that the block reaches into the recent tail, when the budget is at least the recent window |
| KvSpec.TailTestExact | core/src/kv_cache/kv_cache.cpp:53-55 | the wrapping test protects the recent tail as meant, for all blocks whose end fits 32 bits, if and only if the budget is at least the recent window |
| KvSpec.TailTestVanishes | core/src/kv_cache/kv_cache.cpp:53-55 | below that the test protects no block at all, exactly as long as the window exceeds the budget by no more than 2^64 - 2^32 + 1 |
| KvSpec.PlanIsSafeAndMinimal | core/src/kv_cache/kv_cache.cpp:35-61 | for every order that sorting may produce: distinct tracked blocks, none protected by the code's tests; the excess is covered or everything evictable taken; all but the last do not cover it |
| KvSpec.PlanGoesByTheFields | core/src/kv_cache/kv_cache.cpp:43-59 | a block is planned only if it is not pinned, begins at or after the end of the sink and ends, as 32 bits count, no later than the tail begins, as 64 bits count; all such blocks if the plan falls short; and the least salient of them |
| KvSpec.PlanSparesSinkAndTail | core/src/kv_cache/kv_cache.cpp:49-55 | no planned block is pinned or begins in the sink, and with a budget of at least the recent window none that ends within 32 bits ends in the last `recent` tokens of the budget |
| KvSpec.PlanIsBottleneckOptimal | core/src/kv_cache/kv_cache.cpp:43-59 | any other unprotected blocks that cover the excess include one at least as salient as the last planned one |
| KvSpec.TotalIsTrackedPlusStale | core/src/kv_cache/kv_cache.cpp:20-33 | over every run the total is the tracked tokens plus those of blocks observed again while tracked |
| KvSpec.ObservedAgain | core/src/kv_cache/kv_cache.cpp:20-33 | observing a block twice makes the total twice its tokens, and releasing it leaves a total with nothing tracked |
| KvSpec.OneRoundSuffices | core/src/orchestrator.cpp:144-145 | after planning and releasing, the total is within budget or only protected blocks are left, and a second plan is empty |
| KvCache.ScanForVictims | core/src/kv_cache/kv_cache.cpp:48-59 | the loop finds the shortest covering prefix of the evictable blocks in the given order |
| KvCache.KvCacheManager.Observe | core/src/kv_cache/kv_cache.cpp:20-24 | the `observe` step, the total still covering what is tracked |
| KvCache.KvCacheManager.Release | core/src/kv_cache/kv_cache.cpp:26-33 | the `release` step, with no underflow |
| KvCache.KvCacheManager.Plan | core/src/kv_cache/kv_cache.cpp:35-61 | nothing within budget, otherwise the plan for some order by salience |
| KvCache.KvCacheManager.Reset | core/src/kv_cache/kv_cache.cpp:63-65 | the empty state |
| KvCache.KvCacheManager.PlanAndRelease | core/src/orchestrator.cpp:144-145 | within budget or only protected blocks left; no protected block released; nothing changed when already within budget |
| ModelSwap.EvictionsMeetTheBudget | core/src/model_swap/model_swap.cpp:27-47 | evicting the planned models always meets the budget, and without the last of them it would not be met |
| ModelSwap.EvictionsAreBottleneckOptimal | core/src/model_swap/model_swap.cpp:35-45 | any other sufficient set of residents includes one of higher priority than the last planned one, or of the same and last used no earlier |
| ModelSwap.EvictsTheLeastImportant | core/src/model_swap/model_swap.cpp:35-45 | every planned model has lower priority than each resident that stays, or the same and was last used no later |
| ModelSwap.FittingIsLongest | core/src/model_swap/model_swap.cpp:55-61 | the preload plan is the longest run of wanted models that fits |
| ModelSwap.PlanReadsOff | core/src/model_swap/model_swap.cpp:55-61 | the plan reads off, in order and from the first, the predicted models that are known and not resident, and where it ends before the last of them the next does not fit |
| ModelSwap.PreloadsKeepTheBudget | core/src/model_swap/model_swap.cpp:49-63 | a plan that names anything fits the budget together with the residents, and carrying a plan out leaves the residents within budget if and only if they were before |
| ModelSwap.NoEvictionAfterPreload | core/src/model_swap/model_swap.cpp:27-63 | after carrying out a plan that names anything, planning evictions at that budget names nothing |
| ModelSwap.AddUp | core/src/model_swap/model_swap.cpp:52-53 | the sum of sizes, in whatever order the map yields the slots |
| ModelSwap.ScanForVictims | core/src/model_swap/model_swap.cpp:40-46 | the loop finds the shortest sufficient prefix of the given order |
| ModelSwap.DefaultModelSwap.RegisterModel | core/src/model_swap/model_swap.cpp:16-19 | the slot is stored under its id |
| ModelSwap.DefaultModelSwap.MarkUsed | core/src/model_swap/model_swap.cpp:21-25 | the time of last use of a known model, nothing else |
| ModelSwap.DefaultModelSwap.PlanEvictions | core/src/model_swap/model_swap.cpp:27-47 | nothing within budget, otherwise the plan for some order by importance |
| ModelSwap.DefaultModelSwap.PlanPreloads | core/src/model_swap/model_swap.cpp:49-63 | the preload plan for the current residents |
| Markov.LearnsFromOpens | core/src/predictors/predictors.cpp:114-124 | what is learned from a log depends on its opens only |
| Markov.TablesCountTheLog | core/src/predictors/predictors.cpp:117-123 | the tables are exactly the counts of opens and of adjacent pairs of opens |
| Markov.FlowConservation | core/src/predictors/predictors.cpp:114-124 | an app with an id was opened once per transition out of it, and once more if last; any app once per transition into it, and once more for each chain it started |
| Markov.OneStart | core/src/predictors/predictors.cpp:117 | with no empty id, only the first app of the log started a chain |
| Markov.PredictionsAreSubProbabilities | core/src/predictors/predictors.cpp:126-155 | after any log and for any k, every predicted score is in (0, 1] and they sum to at most 1 |
| Markov.OnlyOpensTeach | core/src/predictors/predictors.cpp:114-116 | apps that open or come to the foreground change what is known, and nothing else does |
| Markov.FollowersScore | core/src/predictors/predictors.cpp:138-149 | after an app that was opened before, exactly the apps that have followed it score, each by how often it did plus one, out of how often it was followed plus the number of apps |
| Markov.SharesOfAllOpens | core/src/predictors/predictors.cpp:127-137 | after an app opened for the first time every app scores by its share of all opens; after none, or one without an id, no app scores |
| Markov.PredictsFollowers | core/src/predictors/predictors.cpp:126-155 | after an app that was opened before, what is predicted has followed it and carries that score |
| Markov.PredictsAllFollowers | core/src/predictors/predictors.cpp:126-155 | and with room for all apps, all that have followed it are predicted |
| Markov.OftenestFollowersFirst | core/src/predictors/predictors.cpp:151-155 | an app predicted earlier has followed at least as often as those predicted later and those left out |
| Markov.Markov1Predictor.Observe | core/src/predictors/predictors.cpp:114-124 | the state stays that of a fresh predictor fed everything observed |
| Markov.Markov1Predictor.Predict | core/src/predictors/predictors.cpp:126-155 | the k best of the score table, best first, each app once; the state is left alone and no division by zero occurs |
| Markov.Markov1Predictor.Reset | core/src/predictors/predictors.cpp:157-160 | the state of a fresh predictor |
| Predictions.TopKMass | core/src/predictors/predictors.cpp:149-153 | what is predicted carries no more score than the whole table |
| Predictions.Top | core/src/predictors/predictors.cpp:149-153 | sorting by falling score, ties in any order, and cutting at k gives the k best |
| MarkovBigram.LearnsTheMarkovTables | python/memogent/predictor/markov_bigram.py:40-55 | the unigram side learns the tables of the first-order predictor, so its flow conservation carries over; no app was last used in the future |
| MarkovBigram.OnlyOpensTeach | python/memogent/predictor/markov_bigram.py:40-42 | apps that open or come to the foreground change what is known, and nothing else does |
| MarkovBigram.ContextFromLog | python/memogent/predictor/markov_bigram.py:43-55 | the context is the last two apps, the hour of the last open, and the number of each app's last open |
| MarkovBigram.BigramsFromLog | python/memogent/predictor/markov_bigram.py:48-49 | the bigram table counts adjacent triples of opens, and what followed a pair adds up to how often the pair came, less one if it came last |
| MarkovBigram.HoursFromLog | python/memogent/predictor/markov_bigram.py:50-51 | the hour table counts opens by hour |
| MarkovBigram.BlendFromLog | python/memogent/predictor/markov_bigram.py:57-90 | the candidates are exactly the apps in the log, and each scores, from the log alone, its shares of what followed the last two apps, of what followed the last, of all opens damped by age, and of the opens at this hour, each by its weight |
| MarkovBigram.DefaultBlendFromLog | python/memogent/predictor/markov_bigram.py:20-26 | the same with weights 0.55, 0.20, 0.15 and 0.10 |
| MarkovBigram.BlendMass | python/memogent/predictor/markov_bigram.py:57-90 | for any weights that are not negative, the blended scores are not negative and sum to at most the weights |
| MarkovBigram.PredictionsAreSubProbabilities | python/memogent/predictor/markov_bigram.py:20-26 | with the default weights predicted scores are not negative and sum to at most 1, after any log and for any k |
| MarkovBigram.Accumulate | python/memogent/predictor/markov_bigram.py:64-66 | adding shares into the candidates one by one, in any order, is pointwise addition |
| MarkovBigram.AddUp | python/memogent/predictor/markov_bigram.py:64 | the sum of a counter's values, in any order |
| MarkovBigram.MarkovBigramPredictor.Observe | python/memogent/predictor/markov_bigram.py:40-55 | the `observe` step |
| MarkovBigram.MarkovBigramPredictor.Predict | python/memogent/predictor/markov_bigram.py:57-90 | the k best of the blend |
| MarkovBigram.MarkovBigramPredictor.Reset | python/memogent/predictor/markov_bigram.py:92-100 | the empty tables; the hour of the last event is kept |
| MarkovBigram.ResetIsFresh | python/memogent/predictor/markov_bigram.py:92-100 | the kept hour has no effect: a reset predictor predicts as a fresh one and becomes one with the next open |
| MostRecent.SuffixSuffices | core/src/predictors/predictors.cpp:74-80 | a suffix of the log leaves the same history as the whole log if and only if it holds 256 opens or all there are |
| MostRecent.HistorySnoc | core/src/predictors/predictors.cpp:74-80 | an app that opens or comes to the foreground is added and the oldest goes when there are 256; no other event changes the history |
| MostRecent.HistoryHolds | core/src/predictors/predictors.cpp:74-80 | the history is the last 256 opens, in order |
| MostRecent.KeepsTheLatest | core/src/predictors/predictors.cpp:82-96 | for every k, each predicted app was opened later than all that come after it and all that are left out, and scores one minus its place over the number of apps |
| MostRecent.LastMentionIsRanking | core/src/predictors/predictors.cpp:82-90 | the distinct apps by last mention are the ranking by falling last index |
| MostRecent.OneRanking | core/src/predictors/predictors.cpp:88-90 | that ranking is the only one |
| MostRecent.ReplayPredictsTheSame | core/src/predictors/predictors.cpp:82-96 | replaying such a suffix predicts the same, and with k large enough the apps predicted are a ranking of the last 256 opens by last occurrence |
| MostRecent.PlaceScore | core/src/predictors/predictors.cpp:92-93 | the score of a place is in (0, 1], so the clamp at zero never acts |
| MostRecent.MRUPredictor.Observe | core/src/predictors/predictors.cpp:74-80 | the history stays the last 256 opens of everything observed |
| MostRecent.MRUPredictor.Predict | core/src/predictors/predictors.cpp:82-96 | the k apps mentioned last, latest first, whatever order the hash map yields them in |
| MostRecent.MRUPredictor.Reset | core/src/predictors/predictors.cpp:98 | the state of a fresh predictor |
| EventLog.InMemoryStorage.AppendEvent | core/src/storage/in_memory_storage.cpp:18-22 | the log grows by one event at its end |
| EventLog.InMemoryStorage.LoadEvents | core/src/storage/in_memory_storage.cpp:24-33 | the last `limit` events, oldest first |
| EventLog.InMemoryStorage.Reset | core/src/storage/in_memory_storage.cpp:65-69 | the empty log |
| OrchestratorSpec.PredictorIsReplayOfTheLog | core/src/orchestrator.cpp:75-172 | over every sequence of recording, predicting, ticking, resetting and using the app cache: the log is what was recorded since the last reset, and the predictor, fed one event at a time, holds what replaying the whole log into a fresh one gives, which is the counts of the log or its last 256 opens |
| OrchestratorSpec.StoredSuffixSuffices | core/src/storage/in_memory_storage.cpp:24-33 | in every such state, replaying a suffix of the stored log into a fresh most-recently-used predictor restores it if and only if the suffix holds 256 opens or all there are |
| OrchestratorSpec.WarmingAddsOnlyPlaceholders | core/src/preloader/preloader.cpp:31-39 | preloading brings in nothing but placeholders for the keys asked for, and changes no other value |
| OrchestratorSpec.TickStep | core/src/orchestrator.cpp:134-142 | a tick is a call that does to the app cache what a round does, and nothing to log and predictor |
| OrchestratorSpec.TickWithoutPreload | core/src/orchestrator.cpp:134-142 | a round that may not preload only trims the app cache to the capacity of the plan |
| OrchestratorSpec.TickPreloads | core/src/orchestrator.cpp:137-142 | a round that preloads looks each key up once, leaves the last one resident, and brings in nothing but placeholders for those keys |
| OrchestratorSpec.TickHints | core/src/orchestrator.cpp:137-138 | and before that it brings the residents predicted to the head of t2 |
| OrchestratorSpec.AppCacheMakesARun | core/src/orchestrator.cpp:118-172 | what the facade does to its app cache is a run of ARC, so the theorems on runs hold of it |
| OrchestratorSpec.AppCacheBounds | core/src/orchestrator.cpp:134-142 | over every such sequence the lists of the app cache stay disjoint, and whenever its capacity is at least 1 it exceeds it by one entry at most |
| Orchestrator.Orchestrator.RecordEvent | core/src/orchestrator.cpp:75-79 | the step that adds the event to the log and to what the predictor has learned |
| Orchestrator.Orchestrator.PredictNext | core/src/orchestrator.cpp:113-116 | what a fresh predictor fed the stored log would predict |
| Orchestrator.Orchestrator.Preload | core/src/preloader/preloader.cpp:31-39 | a hint and then, key by key and in order, a look and a placeholder exactly if the look found nothing |
| Orchestrator.Orchestrator.Tick | core/src/orchestrator.cpp:118-157 | one resize per cache, then, if allowed, the preload of what the predictor predicts; the KV cache within budget or all protected; log and predictor untouched |
| Orchestrator.Orchestrator.Reset | core/src/orchestrator.cpp:165-172 | empty log, fresh predictor, empty caches at their capacities, empty KV cache |

## Left out

- LruCompetitive.CCompetitive: is for schedules that load on demand; for all schedules the count that is bounded is of loads, in LruCompetitive.Competitive, and LruCompetitive.BoundedByMissesExactly says when misses are.
- ArcCache.ArcCache.Put: does not model the validity of a hash-set iterator across an insertion into the same set; the ghost is erased by key.
- KvCache.KvCacheManager.Observe: the total is not wrapped at 64 bits; the 32-bit and 64-bit wrap-around of the plan's tests is modelled.
- PyArcCache.PyArcCache.HintFuture: capacities are not negative; Python would accept a negative one.
- ModelSwap.DefaultModelSwap.PlanEvictions: sums of bytes are not wrapped at 64 bits, nor are the counters of the caches.
- Orchestrator.Orchestrator.Tick: the arbiter's decision and the keys the preloader warms are inputs; both caches are ContextARC, and clocks and telemetry are not modelled.
- OrchestratorSpec.PredictorIsReplayOfTheLog: the predictor is first-order Markov or most-recently-used; calls that reach the predictor or the storage directly, past the facade, are not modelled; calls on the app cache are.
- MarkovBigram.MarkovBigramPredictor.Predict: scores are reals, so rounding and NaN are not modelled; nor are they in the other predictors and planners.
- The MFU predictor divides an unbounded count by a capped history, and the frequency-recency predictor rests on exponentials and calendar time; neither is modelled.
- Saved predictor blobs and key-value pairs of the storage, telemetry, the logger, the C interface and the mobile bindings.
- Mutexes: each method is one atomic step.
- Fields that no modelled code reads: bytes of a KV block, reasons of predictions, and the device fields of events.
