# Verification of the asset store and its write-behind persistence

This project models the core of the passive discovery daemon in Dafny and proves what that
core is for: a sharded in-memory asset store, fed by many workers, that a persister writes
behind to a database, with a lifecycle tracker that ages assets out.

`dafny verify dfyconfig.toml` checks everything.

## How the model is built

* **Time.** An instant is a number of nanoseconds since 0001-01-01T00:00:00Z, up to the end of
  the year 9999, with Go's zero time as 0 (`clock.dfy`). `Sub` saturates and sums of durations
  wrap as Go's do.
* **Assets** (`asset_model`, `merge_util`, `merging`, `folding`, `attributes`). The shared asset is
  a class whose methods merge observations in place; each method is proved to compute a function on
  the asset's contents. What folds of that function hold is said of the observations alone, in
  `folding` where their order makes no difference and in `attributes` where it does.
* **The manager** (`resolver`, `store`, `manager`, `lifecycle`, `loading`, `presence`). `Manager.Manager` keeps shared
  asset objects in 16 sharded maps beside a sharded resolver. `View()` is the store it
  represents, a sequence of shard values, and every method is proved to act on the view as the
  operations of module `Store` do. All invariants over runs are about those operations, and
  `lifecycle`, `loading` and `presence` say in plain terms what they do: when an asset is online
  and dirty, which addresses a sweep leaves active, and what a load leaves.
* **Concurrency** (`linearization`, `lives`, `races`, `plain_store`, `worker_pool`, `apply_order`,
  `capture_store`).
  Interleavings are state machines whose steps are what one lock protects: a resolve and a locked
  section are two steps of a caller, and a sweep, an eviction, a drain or a load is one step for
  each shard, as the program takes and releases the shard locks in turn. A receive, a count, a
  resolve and a locked section are steps of a worker. So every state between two shards of a
  call is a state of the model. `Store.CallsAddUp` puts the sections of a call together when
  nobody comes in between; `Races.NotSerial` shows that otherwise they are not one atomic call.
  The resolver has locks of its own: a resolve that falls inside a section answers as before or
  after it (`Races.ResolveInsideEvict`, `Races.ResolveInsideLoad`). Two notions say how callers
  may race: a caller is *up to date* if it takes the lock with the answer that resolve would give
  now, and *late* if it was told that there is no asset and there is one by now.
* **The database** (`calendar`, `time_text`, `text_order`, `storage`, `repository`,
  `round_trip`, `batch_safety`). The tables are a map of rows with their child rows, times are text, and
  SQLite's MIN and MAX compare text. `Repositories.Repository` applies the upserts statement by
  statement.
* **The whole** (`persister`, `tracked`, `write_behind`, `broken_agreement`, `sharded_system`,
  `flushing`). The store, the callers in flight, the persister's queue with the drain that is
  under way, and the database as one state machine. A move is *possible* if the program and its
  surroundings can make it, and *harmless* under a guard on the state before it; a run of
  possible moves keeps the agreement all the way iff its moves are harmless
  (`ShardedSystem.ShardedAgreesIff`), and `broken_agreement` has runs with one harmful move.
* **Around it**: the packet rate (`packet_rate`), the vendor table (`words`, `oui_parser`,
  `oui_lookup`, `vendor_text`), the Ethernet throttle (`ethernet`), DNS names (`dns_name`) and the DHCP
  fingerprint (`fingerprint`).

Answers of collaborators come in as arguments: the row a hydrator finds, the snapshots that are
loaded, the result of each save attempt, the time of a tick, the vendor and name heuristics, the
CSV reader, the text of IP addresses.

## Where the code differs from what it seems to promise

* The code has 16 shards (internal/asset/manager.go:50); README.md:223 of the repository says 32.
* `Apply` resolves before it takes the shard lock (internal/asset/manager.go:263-267). An asset
  evicted in between makes it dereference nil: a schedule crashes iff that happens
  (`ScheduleCrashesIff`, `CrashSchedule`). One created in between is overwritten, and what it had
  learned is lost (`LostUpdate`; `TwoWorkersLose` for a capture with two workers). `StaleResolve`
  and `StaleHydrate` say when one late call shows, and `Lives.AssetIsAllIff` that an asset is what
  all its observations make of it iff nobody was late for it. A caller whose asset went and came
  back has the right answer again (`RightIffPresence`).
* A sweep, an eviction, a drain or a load is not one step: each shard has its own lock
  (`NotSerial`).
* A lease so long that the grace does not fit on top of it in 64 bits wraps, and its address is
  inactive after the next sweep (`InForce` in `SweepChecks`).
* Addresses and the count are not dirty-tracked (`AddressesAreNotTracked`), so the agreement
  covers them by "memory dominates the row" only: each address with its last time and lease, the
  count, and the service slots.
* Evicted ids stay in the dirty set, and drains pass over them (`EvictedDirtyIsLost`); of an asset
  evicted while clean nothing tracked is lost, queued or not (`EvictedIsSaved`). An eviction never
  breaks the agreement (`EvictAgrees`). What can is the asset's return: hydrated from its row
  while the queue has a newer version, it is behind that (`EntryIff`, `RehydrationBreaks`). The
  same guard decides for an asset that a late caller overwrites.
* `Apply` ignores an error of the hydrator (internal/asset/manager.go:271) and creates the asset
  beside its row. That breaks the agreement iff what it creates does not dominate the row, or what
  is queued (`EntersWell` in `MoveAgreesIff`, `MissedRowBreaks`).
* A batch whose save fails for good is dropped. That breaks the agreement iff the batch held the
  last trace of a change (`LoseKeepsIff`, `FailedSave`); `LossBreaks` is a run where it did.
* The service row key has no role, the key in memory has (`ServiceRowIsLast`,
  `ServiceKeyInjective`).
* `extra_json` and a hostname's `first_seen` are written by the insert only (`BatchesGrow`).
* MIN and MAX of times with different numbers of fraction digits can pick the wrong one
  (`MisorderedExample`, `TextMinMax`).
* An address's `FirstSeen` is the time of the observation that came first, not the earliest one
  (`AddressFirstSeen`).
* `rotate` clears the bucket that it leaves, so the rate covers the time since the last tick
  (`TickForgets`, `RateIsAverageIff`); `SlidingRate` is the repaired counter.
* A retry backoff over half the 64-bit range wraps to a negative wait (`BackoffDoublesIff`).
* The guard of `decodeDNSName` counts labels where section 3.1 of RFC 1035 counts octets
  (`ReadBackIff`).

## Model

| member | source | states |
|---|---|---|
| MergeUtil.MergeIpMap | internal/asset/util.go:61-97 | merging an IP map gives the same result for every iteration order; `changed` iff the map changed; `added` lists exactly the new keys, once each |
| MergeUtil.AppendedIsFirstNews | internal/asset/util.go:189-240 | the merged list is the old list followed by exactly the first occurrence of each valid key not yet known, in order |
| MergeUtil.AppendedStaysUnique | internal/asset/util.go:189-240 | no key appears twice if none did before |
| MergeUtil.AppendedTwice | internal/asset/util.go:189-240 | merging the same list again changes nothing |
| MergeUtil.AppendedKeepsFront | internal/asset/util.go:189-240 | the old list is a prefix of the new one |
| MergeUtil.MergeStrings | internal/asset/util.go:189-209 | the loop with its `seen` set computes that list and reports changed iff it grew |
| MergeUtil.MergeServices | internal/asset/util.go:215-240 | the same for services under the key of protocol, port and role |
| MergeUtil.ServiceKeyInjective | internal/asset/util.go:216-221 | two services share a key text iff protocol, port and role agree, for arbitrary protocol strings |
| MergeUtil.MergeExtras | internal/asset/util.go:124-183 | an extra is added, joined or kept by the kinds of both values, for every iteration order; changed iff some key's value is |
| Merging.Asset.TouchTimestamps | internal/asset/util.go:103-118 | first and last time become minimum and maximum, a zero time counts for nothing, changed iff one of them moved |
| Merging.Asset.MergeObservation | internal/asset/merge.go:7-57 | the whole effect on every field, and exactly when `Changed` is raised |
| Merging.Asset.MergeInto | internal/asset/manager.go:202-227 | the observation's effect followed by the guesses for fields that are still empty, and when this counts as a change |
| Folding.FoldIsDigest | internal/asset/merge.go:7-57 | folding any list of observations into a new asset gives minimum, maximum, length, the union of addresses with their latest time and longest lease, and the union of hostnames |
| Folding.OrderIndependent | internal/asset/merge.go:7-57 | two orders of the same observations give the same times, count, addresses, hostnames, last times and leases |
| Folding.AddressTimesOrdered | internal/asset/util.go:72-90 | an address is never first seen after it was last seen, when entries carry the time of their observation |
| Folding.AddressFirstSeen | internal/asset/util.go:72-79 | an address's first time is that of the first observation applied that brought it, not the minimum |
| Attributes.AttributesAreFirst | internal/asset/merge.go:28-43 | model, vendor, device type and OS of a fold are each the first value that is not empty among what was known, what the observations offer and, after each of them, what the vendor table or the heuristics answer |
| Attributes.ServicesAreUnion | internal/asset/merge.go:18-26 | the slots (protocol, port, role) of a fold are those known and those of the services observed that have a protocol or a port; known services stay in front, a new one is the first observed in its slot |
| Attributes.HostnamesAreUnion | internal/asset/util.go:189-209 | the hostnames of a fold are those known, in front, and each other name observed that is not empty, once |
| Attributes.ExtrasOf | internal/asset/util.go:124-183 | under each key a merge takes what is not known, joins lists element by element and keeps anything else |
| Attributes.ChangedIff | internal/asset/manager.go:202-227 | a change is reported iff anything but addresses and count differs, or the count was zero, or a mixed list was joined, even with nothing |
| Tracked.AddressesAreNotTracked | internal/asset/merge.go:10-55 | an observation can add an address and raise the count without raising `Changed` |
| Resolver.ShardedAnswersAsFlat | internal/asset/manager.go:86-132 | after any calls with ids equal to keys the sharded resolver answers every address as the flat index does, and all map pairs are mutual inverses |
| MacAddress.ShardMoves | internal/asset/manager.go:86-95 | the shard of an address is the sum of its bytes modulo 16 |
| Store.StepKeepsWf | internal/asset/manager.go:258-447 | neither an apply made in one go, nor a section of a sweep, eviction, drain or load on one shard, crashes or breaks the index invariant |
| Store.RunKeepsWf | internal/asset/manager.go:258-447 | the same over every run of sections, in any order and of however many calls |
| Store.IndexAgreement | internal/asset/manager.go:86-132 | after every run of sections an address resolves iff its asset is in the shard of the address, to its key; no id is in two shards; the maps are inverse and bind exactly the assets present |
| Store.CallsAddUp | internal/asset/manager.go:342-447 | with nobody in between, the sections of a sweep, eviction, drain or load on the 16 shards add up to the call on the whole store |
| Store.HydratedUpdate | internal/asset/manager.go:271-294 | hydrating an asset and then updating it is one write of the merged row |
| Manager.Manager.constructor | internal/asset/manager.go:146-161 | a new manager is the empty store |
| Manager.Manager.Apply | internal/asset/manager.go:258-315 | working in place on shared assets, maps and resolver, `Apply` is the store's `Apply` for update, hydration and creation, with the id and action reported, and keeps the invariant |
| Presence.SeenIsOnline | internal/asset/manager.go:283-314 | after an apply the asset of the address is there and online, its times include that of the observation, its count is one more, and it is dirty if it was offline or is new |
| Presence.DirtyIff | internal/asset/manager.go:283-314 | an apply leaves every other asset alone, and its own is dirty after it iff it was, is new, was offline or never seen, or anything but addresses and count changed, or a mixed list was joined |
| Presence.IgnoredIff | internal/asset/manager.go:258-261 | an observation leaves the store as it was iff it has no source, no time or no address |
| Manager.Manager.SweepIpMap | internal/asset/manager.go:371-384 | exactly the leased entries past lease and grace become inactive, in any order; changed iff one did |
| Manager.Manager.Sweep | internal/asset/manager.go:342-368 | every shard becomes its swept value, and the count is the number of assets that went from online to offline |
| Manager.Manager.EvictStale | internal/asset/manager.go:388-403 | every shard loses exactly its stale assets and their bindings, keeps its dirty set, and the count is theirs |
| Manager.Manager.DrainDirty | internal/asset/manager.go:405-418 | the snapshots list, shard by shard, each dirty asset that is present once, and all dirty sets are empty after |
| Manager.Manager.LoadSnapshots | internal/asset/manager.go:420-447 | whatever order the shards are visited in, each usable snapshot replaces what it finds iff it is newer or new, and the count is the number taken over |
| Loading.LoadsAreNewest | internal/asset/manager.go:420-447 | under each id a load leaves what memory had if that is as late as all snapshots offered for it, else the first of the latest of these; a snapshot without id or address is offered for nothing, and nothing becomes dirty |
| Loading.CountIsImproved | internal/asset/manager.go:430-446 | the number answered is that of the snapshots that are later than what memory had of their asset and than all before them |
| Manager.Manager.Get | internal/asset/manager.go:317-328 | the asset with the id, or none exactly if no shard has it |
| Linearization.ApplyIsWrite | internal/asset/manager.go:258-315 | an atomic `Apply` reads and writes the asset of its own address only |
| Linearization.AppliesCommute | internal/asset/manager.go:258-315 | applies for different addresses commute |
| Linearization.StaleResolve | internal/asset/manager.go:263-315 | with an earlier answer of resolve and no row, the locked part does what the atomic call does iff the answer is still right; it crashes iff the asset is gone; a missed creation is overwritten |
| Linearization.StaleHydrate | internal/asset/manager.go:270-294 | with a row, a missed creation is replaced by the row: unnoticed iff contents and dirty mark come out the same, so always when row and memory are equal and never when their counts differ |
| Linearization.HappenIsAtomic | internal/asset/manager.go:258-447 | an event of a caller that is up to date, or of a section, does not crash and leaves the store as the atomic operation does |
| Linearization.SchedulesLinearize | internal/asset/manager.go:258-447 | however callers, tracker, persister and loads interleave section by section, if every caller is up to date when it takes the lock, nothing crashes and the store is that of atomic applies and sections in lock order |
| Linearization.RightIffPresence | internal/asset/manager.go:263-267 | an earlier answer of resolve is right iff the asset is there just as it was then, whatever happened in between |
| Linearization.ScheduleCrashesIff | internal/asset/manager.go:263-315 | however late its callers are, a schedule crashes iff a caller takes the lock that was told of an asset which is gone by then, and one that does not crash keeps the index invariant |
| Lives.AssetsAreLives | internal/asset/manager.go:258-447 | in every schedule that has not crashed, each asset is what it entered memory with, created, hydrated or loaded, merged with the observations and swept as in the sections since |
| Lives.OnTimeIsAll | internal/asset/manager.go:263-315 | if nobody has been late since the asset entered memory, those are all observations applied to it since |
| Lives.AssetIsAllIff | internal/asset/manager.go:263-315 | and if the rows that late callers find lag behind memory, the asset is what all of them make of it iff nobody has been late; its count is never above theirs |
| Lives.SightsAreLast | internal/asset/manager.go:258-315 | the observations of an asset since it entered memory are the last ones applied to its address |
| Lives.FoldIff | internal/asset/manager.go:263-315 | with callers and drains only, nothing crashes and an asset is the fold of all observations ever applied to it iff nobody was late |
| Lives.UpToDateIsOnTime | internal/asset/manager.go:263-315 | callers that are up to date are not late |
| Attributes.LivedIsFoldBut | internal/asset/manager.go:258-403 | however an asset was swept in between, but for its status and for which addresses are active it is the fold of its observations on what it entered memory with |
| Attributes.AttributesInStore | internal/asset/manager.go:202-315 | so in every schedule that has not crashed each asset's model and vendor are the first ones said, and its hostnames and service slots the union |
| Presence.OfflineIff | internal/asset/manager.go:284-368 | an asset is offline iff a sweep since its last observation found it older than offlineAfter, or it entered memory offline and was not observed since; it was last seen at the latest of its times |
| Presence.OfflineInStore | internal/asset/manager.go:258-447 | and so is each asset in every schedule that has not crashed |
| Presence.InactiveIff | internal/asset/manager.go:342-384 | an asset has an address iff it entered memory with it or an observation had it, and the address is inactive iff a sweep since the last such observation found its lease over, or it entered memory inactive and no observation had it |
| Presence.InactiveInStore | internal/asset/manager.go:258-447 | and so for each address of each asset in every schedule that has not crashed |
| Presence.TouchedAddress | internal/asset/util.go:61-96 | an observation that has an address makes its entry active, with the later last time, the longer positive lease and the first time it had, or takes it over as first seen now; one that has it not leaves it alone |
| Races.LostUpdate | internal/asset/manager.go:263-315 | two callers that both resolve a new address as absent: both apply, the second is late, and the asset knows of its observation only |
| Races.CrashSchedule | internal/asset/manager.go:263-296 | an asset resolved, then swept and evicted before the lock is taken: the locked section crashes |
| Races.NotSerial | internal/asset/manager.go:342-418 | a drain that overtakes a sweep between two shards leaves dirty sets that no order of the two calls leaves |
| Races.ResolveInsideEvict | internal/asset/manager.go:97-132 | a resolve while a section of `EvictStale` has unbound some of its ids answers as before or as after the section |
| Races.ResolveInsideLoad | internal/asset/manager.go:420-447 | the same while a section of `LoadSnapshots` has bound some of its snapshots |
| PlainStore.StepIsPlain | internal/asset/manager.go:258-447 | on one plain map of assets, without shards or index, every section has the same effect |
| PlainStore.EnterIsPlain | internal/asset/manager.go:270-314 | the locked section of a caller that was told that there is no asset is a plain write of what it hydrates or creates, whether there is one by now or not |
| PlainStore.SchedulesArePlain | internal/asset/manager.go:258-447 | interleaved runs of sections and of callers that are up to date are runs on the plain map |
| PlainStore.DrainIsPlain | internal/asset/manager.go:405-418 | what a drain takes from a shard is each dirty asset of the plain map that is at home there, once |
| PlainStore.DrainedAll | internal/asset/manager.go:405-418 | a drain of all shards lists exactly the dirty assets of the plain map, each once and as it is, and leaves nothing dirty |
| Lifecycle.Tick | internal/lifecycle/tracker.go:55-68 | a tick is a sweep and then an eviction at the same time, with both counts |
| Lifecycle.AgesAfterTick | internal/lifecycle/tracker.go:55-68 | after a tick no online asset is older than offlineAfter and no offline one older than evictAfter |
| Lifecycle.TickRemoves | internal/asset/manager.go:342-403 | a tick removes exactly the assets that are offline after its sweep and older than evictAfter |
| Lifecycle.SweepChecks | internal/asset/manager.go:342-384 | a sweep keeps every asset with all it holds, but that one is offline iff it was or is older than offlineAfter, and an address is active iff it was and has no lease or was seen within lease and five minutes; exactly the assets that differ become dirty |
| Lifecycle.TickChecks | internal/lifecycle/tracker.go:55-68 | the same of the assets that a tick leaves |
| Lifecycle.TickCounts | internal/lifecycle/tracker.go:55-68 | the counts of a tick are those of the assets that were online and are too old, and of the assets that are gone |
| Lifecycle.SweepTransitions | internal/asset/manager.go:342-368 | the transitions are exactly the assets online before and offline after, and no asset comes back online |
| Lifecycle.SecondSweep | internal/asset/manager.go:342-368 | a second sweep at the same time changes nothing, the dirty sets included, and counts nothing |
| Lifecycle.LaterTickAbsorbs | internal/lifecycle/tracker.go:55-68 | of two ticks with no call between them the first makes no difference to assets, index, or which of them are dirty |
| Lifecycle.EvictedDirtyIsLost | internal/asset/manager.go:388-418 | an asset evicted while dirty stays in the dirty set, and every drain passes over it until it is back in memory |
| TimeText.ParseUndoesFmt | internal/storage/sqlite.go:438-468 | reading the stored text of a time gives the time back to the nanosecond |
| TextOrder.TextOrderIsTimeOrder | internal/storage/sqlite.go:257-258 | text order is time order except between two times in the same second of which one fraction extends the other |
| TextOrder.TextMinMax | internal/storage/sqlite.go:257-258 | MIN and MAX of two texts are those of the times iff the pair is not misordered |
| TextOrder.EqualDigitsCompare | internal/storage/sqlite.go:340-341 | with the same number of fraction digits, text order is time order (section 5.1 of RFC 3339) |
| TextOrder.TextMinMaxWithinSecond | internal/storage/sqlite.go:257-258 | in any case the time picked is in the same second as the true one |
| TextOrder.MisorderedExample | internal/storage/sqlite.go:438-443 | two stored times whose MIN is the later one |
| Storage.ChunkingDoesNotMatter | internal/storage/sqlite.go:70-88 | saving a list in consecutive chunks is saving it whole |
| Storage.ServiceRowIsLast | internal/storage/sqlite.go:304-330 | a protocol and port have a row iff a service of the snapshot falls there, and it is the last such service, whatever its role |
| Repositories.Repository.ReplaceChildRows | internal/storage/sqlite.go:275-332 | all child rows of a snapshot, for every iteration order of its address maps |
| Repositories.Repository.SaveBatch | internal/storage/sqlite.go:70-88 | all rows of the batch or, when a statement or the commit fails, none |
| Repositories.EveryRowLoads | internal/storage/sqlite.go:356-436 | for every stored row there is a snapshot that loading it can give |
| RoundTrip.ColumnsComeBack | internal/storage/sqlite.go:196-273 | saving a snapshot into an empty row and loading it gives every column of the asset back but `extra`: its hostnames as a set without the empty one, and its address iff the text can be read, which is for 6, 8 and 20 bytes |
| RoundTrip.FirstColumns | internal/storage/sqlite.go:245-302 | which column of a new row holds what, extra and the hostname rows included |
| RoundTrip.AddressesComeBack | internal/storage/sqlite.go:334-392 | its addresses come back with times, flag and whole seconds of lease; one that is in both families comes back in the second only |
| RoundTrip.AddressesComeBackIff | internal/storage/sqlite.go:334-392 | with disjoint families, an address map comes back unchanged iff all its leases are whole seconds |
| RoundTrip.ServicesComeBack | internal/storage/sqlite.go:304-330 | the services that come back are exactly the last usable ones of their slots, as servers |
| BatchSafety.SaveTwice | internal/storage/sqlite.go:245-332 | saving a batch twice leaves the rows that saving it once leaves |
| BatchSafety.FoldTwice | internal/storage/sqlite.go:250-260 | the reason: for an upsert in which a later write absorbs an earlier one around it, repeating a whole sequence of writes changes nothing |
| BatchSafety.BatchesGrow | internal/storage/sqlite.go:245-354 | over any batch first_seen never rises and last_seen, seen_count and lease_seconds never fall, each in its column's order, extra and the first_seen of hostnames stay what the insert wrote, and no row goes |
| Persister.NothingLostOrReordered | internal/persist/persister.go:200-216 | over every run of flushes the batches in order, followed by what is pending, are all drained snapshots in drain order |
| Persister.BatchesAreBounded | internal/persist/persister.go:200-216 | no batch is longer than the batch size |
| Persister.QuietFlushes | internal/persist/persister.go:200-216 | k flushes with nothing new leave max(0, n - k * BatchSize) pending |
| Persister.Persister.SaveWithRetry | internal/persist/persister.go:218-257 | calls `SaveBatch` until it succeeds, is cancelled, the context ends in the wait after it, or max calls are made, and answers accordingly; the rows are those of the batch iff a call succeeded; a wait follows each failed call that is not cancelled, the i-th one for the i-th backoff, and together they take at most b0 + (max - 1) * 5s if b0 can be doubled |
| Persister.OneEnd | internal/persist/persister.go:218-257 | the answers of the attempts and the end of the context determine how many calls there are and what is answered |
| Persister.Persister.Flush | internal/persist/persister.go:134-198 | an empty batch is not saved, another one ends as `saveWithRetry` does, the rows are those of the batch iff an attempt succeeded, a batch that fails for good is not put back, and exactly one counter moves |
| Persister.BackoffDoublesIff | internal/persist/persister.go:219-255 | the i-th wait is min(b0 * 2^i, 5s) for all i iff b0 can be doubled in 64 bits |
| Persister.WaitsAreShort | internal/persist/persister.go:218-257 | n waits take at most b0 + (n - 1) * 5s together, if b0 can be doubled; the link to the retry limit is in `SaveWithRetry` |
| Tracked.RevivedDominates | internal/asset/manager.go:284-296 | an update of an asset only adds to what is known, address by address, and without a change leaves every tracked column alone |
| Tracked.SaveAgrees | internal/storage/sqlite.go:245-302 | a row saved from a snapshot that dominates it agrees with the snapshot in the tracked columns |
| Tracked.LoadSame | internal/storage/sqlite.go:356-436 | a snapshot loaded from a row has the row's columns |
| WriteBehind.MoveKeeps | internal/persist/persister.go:134-216 | every possible and harmless move of store, queue and database keeps the write-behind invariant: all applies to assets in memory, sweeps, evictions, drains, collecting and saving, and under their guards what enters memory, on time or late, and a lost batch |
| WriteBehind.WriteBehindAgreement | internal/asset/manager.go:258-447 | the agreement on the plain store, over every run of harmless moves |
| WriteBehind.EntryIff | internal/asset/manager.go:270-314 | an asset that enters memory, or overwrites what is there, with contents that dominate its row, keeps the agreement iff nothing is queued for it, or it dominates the newest queued version and is dirty or the same in the tracked columns |
| WriteBehind.EvictAgrees | internal/asset/manager.go:388-403 | an eviction keeps the agreement, whatever is dirty or queued |
| WriteBehind.MoveAgreesIff | internal/persist/persister.go:134-216 | from every state that harmless moves reach, a possible move keeps the agreement iff it is harmless: hydrations, creations, also after an error of the hydrator, loads and lost batches under their exact guards, and every other move always |
| WriteBehind.RunAgreesIff | internal/persist/persister.go:134-216 | a run of possible moves has the agreement after each of them iff all of them are harmless |
| WriteBehind.LoseKeepsIff | internal/persist/persister.go:148-155 | giving up a batch keeps the invariant iff the row of each clean asset whose newest version is in it, and in no later part of the queue, agrees with that version already |
| WriteBehind.FailedSave | internal/persist/persister.go:148-155 | the agreement itself survives the loss of a batch under exactly that condition |
| WriteBehind.EvictedComesBack | internal/asset/manager.go:270-281 | what is loaded for an asset that is neither dirty nor queued agrees with it in the tracked columns and is dominated by it in the rest, so evicting and hydrating it loses nothing tracked |
| WriteBehind.EvictedIsSaved | internal/asset/manager.go:388-403 | after an asset is evicted while clean, over any harmless run that leaves it alone, the newest queued version is what memory had in the tracked columns, and once none is queued its row agrees with that |
| BrokenAgreement.LossBreaks | internal/persist/persister.go:148-155 | a run whose first harmful move is a lost batch: a new asset, one flush, the save fails for good; it ends with a clean asset that has no row |
| BrokenAgreement.MissedRowBreaks | internal/asset/manager.go:270-314 | a run whose first harmful move is an apply for which the hydrator fails: after the flush the asset is clean and lacks a hostname that its row has |
| BrokenAgreement.RehydrationBreaks | internal/asset/manager.go:270-281 | a run whose first harmful move is a hydration: an asset is hydrated, swept, drained, evicted, and hydrated again before the drained version is saved; after the flush it is clean and lacks a hostname that its row has |
| BrokenAgreement.BrokenRuns | internal/asset/manager.go:270-314 | the database that one save of a new asset leaves is one for this run and for the one before, for any later observations that differ in a hostname |
| ShardedSystem.ShardedAgreement | internal/asset/manager.go:258-447 | over every interleaving of harmless moves of callers, up to date or late, tracker, persister and loads, section by section, nothing crashes, memory dominates every queued and stored version, and an asset that is not dirty agrees with its newest queued version, else with its row, in status, times, vendor, type, model, OS and hostnames |
| ShardedSystem.ShardedAgreesIff | internal/asset/manager.go:258-447 | and exactly then: a run of possible moves does not crash and has the agreement in every shard after each move iff all its moves are harmless, by guards on the shard concerned: no caller was told of an asset that is gone, and what enters memory, also over an asset that is there, fits the queue and the row |
| Flushing.FlushNow | internal/persist/persister.go:134-198 | one flush of the real objects is a run of that state machine: the drain of each shard, collecting, and saving the batch or, when the attempts end otherwise, losing it |
| WorkerPool.EveryPacketOnce | internal/pipeline/workerpool.go:47-77 | for any number of workers and any interleaving, what was taken and what is in the channel is what was sent, each packet taken by one worker, each observation passed to `Apply` once or still to be |
| WorkerPool.WhenRunReturns | internal/pipeline/workerpool.go:34-45 | when all workers are back, all taken packets are processed and applied + dropped are their observations; if one came back on the closed channel, processed is the source's received |
| WorkerPool.WholeCapture | internal/capture/pump.go:22-46 | a capture that ends by itself processes exactly the observable packets |
| WorkerPool.SameWork | internal/pipeline/workerpool.go:34-77 | workers, channel capacity and interleaving make no difference to which observations a whole capture applies |
| ApplyOrder.AppliesInOrder | internal/pipeline/workerpool.go:47-77 | at any time of any run each worker has begun a call of `Apply` for every observation of the packets it has finished and for the first ones of that in its hands, in that order, and ended all but the one it is in |
| ApplyOrder.CountersCount | internal/pipeline/workerpool.go:57-74 | the counters are the packets counted, the calls that answered well and those that did not |
| CaptureStore.AssetIsAllIff | internal/pipeline/workerpool.go:47-77 | at any time of a capture, with the tracker, the persister, loads and a hydrator, if nothing has crashed: an asset is what all observations applied since it last entered memory make of it iff no worker has been late for it since, and those are the last ones offered |
| CaptureStore.AssetIsFoldIff | internal/pipeline/workerpool.go:47-77 | in a capture without ticks, loads and a hydrator nothing crashes, and at any time an asset is the fold of its observations offered so far iff no worker was late for it |
| CaptureStore.ScheduleDoesNotMatter | internal/pipeline/workerpool.go:34-77 | two whole captures of the same packets without ticks, loads and a hydrator, if nobody was late for an address, leave the same asset for it up to what depends on the order of arrival |
| CaptureStore.OneWorkerIsExact | internal/pipeline/workerpool.go:47-77 | one worker is never late, whatever tracker, persister and hydrator do, unless a load comes in between, so its assets are always what all their observations make of them |
| CaptureStore.TwoWorkersLose | internal/pipeline/workerpool.go:47-77 | a whole capture of two packets by two workers after which the store knows of one of them only |
| WorkerPool.StepsRunOut | internal/pipeline/workerpool.go:47-77 | every step of pump and workers lowers a bound on the steps to come |
| WorkerPool.NeverStuck | internal/pipeline/wiring.go:10-19 | once the capture ended or was told to stop, some step is possible until the channel is closed and all workers are back |
| PacketRates.PacketRate.Inc | internal/stats/packet_rate.go:36-41 | keeps the invariant: every bucket but the current one is zero and the total is the packets since the last tick, in 64 bits |
| PacketRates.PacketRate.Rotate | internal/stats/packet_rate.go:65-70 | keeps the same invariant |
| PacketRates.PacketRate.Rate | internal/stats/packet_rate.go:44-49 | the packets since the last tick divided by the size |
| PacketRates.RateIsAverageIff | internal/stats/packet_rate.go:43-49 | that is the average over the window iff there was no packet in it before the last tick |
| PacketRates.TickForgets | internal/stats/packet_rate.go:65-70 | one packet and one tick: the counter says nothing, the window holds the packet |
| PacketRates.WindowIsIntervals | internal/stats/packet_rate.go:9-17 | a window of k + 1 intervals is one of k and the interval before it |
| PacketRates.SlidingRate.Rotate | internal/stats/packet_rate.go:65-70 | advancing first and clearing the bucket reached keeps the total equal to the last `size` intervals |
| Words.CleanVendorIsClean | internal/oui/parser.go:189-191 | cleaning a name keeps its words and is idempotent |
| OuiParser.CollectHex | internal/oui/parser.go:167-187 | the hex digits in capitals, or nothing if there is any other character than digits and separators |
| OuiParser.NormalPrefixIsKey | internal/oui/parser.go:155-165 | a normalised prefix is 6 to 12 capital hex digits, and those are exactly the fixed points |
| OuiParser.Parse | internal/oui/parser.go:32-63 | the last row for each prefix, nothing else, and the numbers of exactly the malformed lines in order |
| OuiParser.ParsedIsClean | internal/oui/parser.go:82-115 | every key and vendor that is read is in normal form already |
| VendorText.RowIs | internal/oui/parser.go:82-115 | a row of one of the three registries is malformed iff its second column is no assignment of 6 to 12 hex digits; else it is an entry of those digits for the words of its third column, unless there are none or they say "Private" |
| VendorText.LineIs | internal/oui/parser.go:71-137 | a line with a registry before the first of two commas is read as the row that the CSV reader makes of it |
| VendorText.DigitsAreValues | internal/oui/parser.go:167-187 | the digits collected from a text are capitals with the same values in the same order |
| OuiLookup.Lookup.constructor | internal/oui/lookup.go:15-36 | every usable entry is filed under its normal form, nothing else is, and the lengths are those of the keys, longest first |
| OuiLookup.LoadRegistry | internal/oui/lookup.go:38-51 | a table made from what `Parse` returns holds every one of its entries unchanged, the last row winning |
| OuiLookup.Lookup.VendorForMac | internal/oui/lookup.go:60-74 | the vendor of the longest key that is a prefix of the address, none iff there is none |
| OuiLookup.OneVendor | internal/oui/lookup.go:60-74 | a longest-prefix search has one answer, and two addresses with one normal form have the same |
| OuiLookup.SeparatorsDoNotMatter | internal/oui/parser.go:167-187 | a separator more or less in an address makes no difference to its vendor |
| OuiLookup.CaseDoesNotMatter | internal/oui/parser.go:167-187 | neither does the case of its letters |
| VendorText.TextSpellsAddress | internal/asset/manager.go:206 | each byte of an address is written as two hex digits that read as its number |
| VendorText.LookedUpAs | internal/oui/lookup.go:77-82 | an address of six bytes is looked up under the twelve capital digits that spell it, and no other is looked up |
| Ethernet.EthernetAnalyzer.AnalyzeCtx | internal/analyzer/ethernet.go:114-231 | the observations and both throttle maps, as functions of the frame and the maps before |
| Ethernet.PassesAreSpaced | internal/analyzer/ethernet.go:122-132 | n passes of one key span at least (n - 1) times the throttle, in any order of time |
| Ethernet.SightingsAreSpaced | internal/analyzer/ethernet.go:122-132 | n unthrottled observations of a source address span at least (n - 1) minutes |
| Ethernet.SightedUnlessRecent | internal/analyzer/ethernet.go:122-194 | a frame brings the full observation of its source iff the last one was at least a minute before |
| Ethernet.EmittedExactly | internal/analyzer/ethernet.go:114-231 | in a run of one worker, each side of a frame that can be reported and was not reported for a minute is reported with exactly the addresses that the IP headers give for it, as seen now, active, without lease and without link-local IPv6; a source that is not due is reported only for its call; a service is reported iff a source calls a port with a name, and it is that one |
| Ethernet.SightingsAreReports | internal/analyzer/ethernet.go:122-132 | the unthrottled observations of a source are the first, and then each that comes a minute or more after the one before |
| Ethernet.AttemptsAlwaysSeen | internal/analyzer/ethernet.go:166-194 | a connection attempt to a known service from a usable address is in exactly one observation, throttled or not |
| DnsName.DecodeDnsName | internal/analyzer/dhcpv6.go:155-184 | the dot-join of the labels that are taken |
| DnsName.LabelsAreLongest | internal/analyzer/dhcpv6.go:155-173 | for any input, those are the longest acceptable list of labels that the input starts with |
| DnsName.LegalNamesAreRead | internal/analyzer/dhcpv6.go:155-173 | every name legal under sections 2.3.4 and 3.1 of RFC 1035, followed by any bytes, is read back whole |
| DnsName.ReadBackIff | internal/analyzer/dhcpv6.go:165-167 | among labels of legal length, exactly those that pass the guard are read back whole |
| DnsName.DecodingIsInjective | internal/analyzer/dhcpv6.go:155-184 | legal names without dots in their labels are told apart |
| Fingerprint.AppendUint | internal/analyzer/dhcp.go:142-154 | appends the decimal form; three digits suffice below 1000 |
| Fingerprint.ParamRequestListFingerprint | internal/analyzer/dhcp.go:126-139 | the first 16 codes in decimal, joined by commas |
| Fingerprint.ReadUndoesPrint | internal/analyzer/dhcp.go:126-154 | reading the fingerprint gives the first min(16, n) codes back |
| Fingerprint.SameFingerprintIff | internal/analyzer/dhcp.go:126-154 | two lists have the same fingerprint iff their first 16 codes agree |

## Left out

- Times outside the years 1 to 9999: a stored time has a four-digit year in the model.
- `SeenCount`, the counters of the pipeline and of the persister: not wrapped at 64 bits.
- `Extra` values beyond nil, scalars, `[]string` and `[]any`, and their JSON: an extra is compared as a value and not followed through the database.
- Loading: which of several rows with one address `LoadAssetByMAC` picks, the recency window and limit of `LoadAssets`, and the order of hostnames and services on load are left open by the relation that stands for loading.
- ShardedSystem.ShardedAgreement: flushes do not overlap, and loads and hydrations are of rows as they are at their section; so it is for ShardedSystem.ShardedAgreesIff. The agreement is between memory, queue and database: what a late caller makes memory forget, before it was ever drained, is in the rows of `Lives` and `Races`.
- Lives.AssetIsAllIff: for a late caller that finds a row with the same count as memory, and for loaded snapshots that were never seen, only one half is stated (Lives.OnTimeIsAll); Linearization.StaleHydrate has the condition for one such call.
- CaptureStore.AssetIsAllIff: the same.
- CaptureStore.ScheduleDoesNotMatter: without ticks, loads and a hydrator, because with them the time of a tick or a load between the observations decides the outcome.
- Lives.FoldIff: without ticks, loads and a hydrator; Lives.AssetIsAllIff is the statement with them.
- CaptureStore.AssetIsFoldIff: the same, and CaptureStore.AssetIsAllIff.
- CaptureStore.OneWorkerIsExact: without loads that come between the resolve and the lock of the worker, since those can make it late.
- Which addresses a row holds: an address in both families of one snapshot is one row, as in the table; of the rows' addresses, services and count, which are not tracked, memory is proved to dominate the last times, the leases, the slots and the count.
- `created_at` and `updated_at`, statistics rows, SQL text, drivers, pragmas and schema creation.
- `parseTimeStr` on text that `timeFmt` did not write: only texts in UTC with at most nine fraction digits are read in the model.
- Lease seconds: `Duration.Seconds()` goes through a float; the model takes whole seconds exactly.
- Nil and empty maps and slices are one value; cloning is the identity on values, so aliasing between a snapshot and its asset cannot be expressed.
- The shard mutexes themselves: what one of them protects is one step, also where it asks the hydrator; the readers `Snapshot`, `StatusCounts` and `AssetsCount` are not modelled.
- Repositories.Repository.SaveBatch: the rows of one snapshot are a value, so a reader of a half-written transaction is not expressed, nor is a commit that reports an error and holds.
- Persister.Persister.Flush: the statistics row and the timing of a flush are not modelled.
- Flushing.FlushNow: nobody comes in between its sections in this method; ShardedSystem.ShardedAgreement is about runs in which others do.
- WorkerPool.WhenRunReturns: packet bytes and the loggers are not modelled; a packet is its number of layers and its observations.
- Ethernet.EthernetAnalyzer.AnalyzeCtx: for one worker; with several workers the load and the store of a throttle map are not one step. `Reset` is not modelled.
- OuiParser.Parse: scanner errors and the CSV reader itself; letters outside ASCII are folded only as far as the registry names can be reached.
- The optional vendor, device type, OS and hostname heuristics: functions given from outside.
- `dhcpv6IANALifetime`, SSDP headers, the HTTP API, query building, output sinks, configuration and tickers.
