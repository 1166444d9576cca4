# chatty-metal and the broker's workload gate, modelled in Dafny

`chatty-metal` is an appliance that runs a mixture-of-experts language model from NVMe, RAM and VRAM; `chatty-broker`
shares one GPU host between chat and image work. This project models the machinery that decides what is in memory, who
may touch it and where things are found, and proves that it does what it is for.

| files | what they model |
|---|---|
| `WorkloadGate`, `GateProtocol` | the broker's admission gate: its critical sections, and every interleaving of tasks that queue, are cancelled, switch and leave |
| `ResidencyProtocol`, `Residency`, `ResidencyPreload` | the expert residency scheduler: a main thread, a fetcher and a copier over shared slot memory; warming the tiers at boot |
| `ReadPlanner`, `ReadExecution`, `ReaderPool` | coalesced reading of weight shards: the plan, its execution on memory, and the worker pool with its shared cursor |
| `ExpertTables`, `ExpertBatches`, `ExpertContents`, `ExpertRequests`, `ExpertViews`, `ExpertSources`, `ExpertCollision`, `ExpertRefusals`, `ExpertPanics`, `ExpertRuns`, `ExpertHoleRun`, `ExpertCache` | the exclusive VRAM/RAM expert cache: one request as functions, its invariants, its runs, its failing cases with their exact conditions, and the class that performs it |
| `EngramCache`, `EngramHash`, `Primes`, `EngramLookup` | n-gram embedding rows: the 8-way clock cache, the rolling hashes, the prime search, and how they meet |
| `RouteReplay` | the two-tier LRU replay of a routing trace |
| `Tokenizer`, `TokenizerSpecials`, `Utf8` | byte-level BPE and its decoder; which ids text can produce; UTF-8 (section 4 of RFC 3629) |
| `AttentionRing` | ring buffers and compressed stores of attention, on the GPU and in the reference model |
| `Streaming` | the token loop of one request |
| `Blit` | dirty-span drawing of the status display |
| `AqlQueue` | packets and kernel arguments shared with the GPU |
| `Options`, `Arithmetic` | optional values, and facts about quotients and sizes |

Concurrent code is a step system: a state, steps with guards, and theorems over every legal sequence of steps. Sequential
code that changes fields is a class, or a method on arrays, proved against functions whose properties are lemmas.

## Results worth knowing

- **The expert cache can hand one slot to two experts.** Slots are reserved before owners are recorded, and the clock
  takes any owner-less slot it meets. `RequestKeepsAgreement` gives the exact condition, a function of the tables before
  the request (`CleanRequest`: no sweep of the request stops at an owner-less slot). After a successful clean request
  directory and owner tables are mutually inverse and every view shows its expert. After an unclean one they are not, and
  two different experts are answered with the same bytes: one VRAM slot, or two staging copies of one RAM slot. So for
  experts whose bytes differ, all views are right if and only if the request was clean. `OneMissTooMany` is the failing
  family: n RAM slots, no VRAM and n + 1 cold experts, for every n from 1 to 15. One slot and two experts are the least,
  since a request with one cold expert always meets the guard (`OneMissIsClean`), as does one with no more cold experts
  than free slots (`FreeSlotsSuffice`). The code's own exclusivity check
  (crates/chatty-metal/src/store.rs:1558-1574) looks from owners to directory only, which a shared slot satisfies.
- **A refused request is not always without trace.** `RefusalIsHarmlessIff` gives the exact condition for every cause:
  an index out of range leaves pins unless it is the first; a reservation or read that fails leaves owner-less slots
  unless none was reserved; a failed GPU copy leaves nothing behind exactly if the request was clean. Over whole runs,
  `EveryFineRunIsSound`: the cache stays sound throughout if and only if every success was clean and every refusal
  harmless.
- **When a request panics.** `PanicsIff` holds from any tables, with owner-less slots, shared slots and stale pins: a
  request that is not refused panics if and only if it asks for an expert that was pinned before, or one of its victim
  searches stops at an owner-less slot; both are functions of the tables before the request. With agreeing tables only
  the first is possible (`PanicsIffPinnedBefore`), and from a sound cache neither (`SoundCannotPanic`). The second does
  happen: `FailedReadLeadsToPanic` is a run of four requests for one expert, with one slot in each tier.
- **What text can produce.** BPE is local: an id is produced from some bytes exactly if it encodes its own bytes to
  itself (`ProducedIffEncodesItself`). So text can forge a special token only if that token encodes itself, and where
  the patterns keep its text whole, exactly then. With ids of their own, special tokens are safe
  (`NoSpecialIdIsProduced`); `SharedIdIsForged` is an accepted, unambiguous file where one is not.
- **The GPU pools pairs.** Its kernel reads two rows of a group, at every ratio. `GpuAgreesWithReference` shows that the
  GPU and the reference read the same windows always, and the same groups if and only if the ratio is at most 2 or no
  group is complete; `RatioThreeDisagrees` is the smallest difference. Nothing in the code rejects a larger ratio.
- **The prime search is right from 2 on.** `NextPrimeIsTheLeast` is an if-and-only-if: above 0 the search yields 1, and
  above 1 it yields 3.
- **A lost fetch stays lost.** A failed read sends no report (crates/chatty-metal/src/residency.rs:531-533). Memory stays
  safe, but `LostFetchStaysCold` shows that the expert is cold and busy in every continuation. Every schedule ends the
  wait for an expert if and only if its own fetch is not lost (`EveryScheduleEndsTheWait`), and one lost fetch keeps
  `preload` from returning (`LostFetchHangsPreload`).
- **Preloading trusts its list.** It starts fetches without looking whether the expert is resident or busy. For distinct,
  cold, idle experts it is a run of the protocol (`PreloadIsARun`); `FetchKeepsInvIff` says which fetches it may start,
  and `ListedTwiceOwnsTwoSlots` is a list where one expert comes to own two slots.

## Model

| member | source | states |
|---|---|---|
| `WorkloadGates.WorkloadGate.Test` | crates/chatty-broker/src/workload.rs:80-103 | one pass of the admission loop admits exactly if the admission test holds, takes the task off or on the queue, and tells it to switch exactly if the loaded kind changes |
| `WorkloadGates.WorkloadGate.CancelWaiting` | crates/chatty-broker/src/workload.rs:50-57 | a cancelled waiter leaves its kind's count and nothing else |
| `WorkloadGates.WorkloadGate.FinishSwitch` | crates/chatty-broker/src/workload.rs:108-111 | only the switching mark is cleared |
| `WorkloadGates.WorkloadGate.DropGuard` | crates/chatty-broker/src/workload.rs:122-137 | one holder fewer; dropped mid-switch, the loaded kind is forgotten |
| `WorkloadGates.IdleGateAdmitsAWaiter` | crates/chatty-broker/src/workload.rs:80-88 | with nothing active and someone waiting, at least one waiting kind is admissible |
| `WorkloadGates.AdmitEnablesNobody` | crates/chatty-broker/src/workload.rs:89-98 | an admission never makes another task admissible that was not, so it owes no wake-up |
| `GateProtocol.MutualExclusion` | crates/chatty-broker/src/workload.rs:69-137 | in every run all holders share the loaded kind, and a switch has exactly one holder |
| `GateProtocol.NoChatModelUnderImageWork` | crates/chatty-broker/src/adapters.rs:71-142 | in every run, failed and abandoned switches included, no chat model is resident while a granted image guard is held |
| `GateProtocol.SleepersAreOwedTheirWakeup` | crates/chatty-broker/src/workload.rs:50-112 | in every run a sleeping waiter whose test is true is owed a notification that some thread has yet to issue |
| `GateProtocol.NobodySleepsForever` | crates/chatty-broker/src/workload.rs:69-137 | when every guard is dropped and every notification delivered, a state in which all remaining tasks sleep has no tasks |
| `GateProtocol.BoundedOvertaking` | crates/chatty-broker/src/workload.rs:80-103 | while a kind is kept waiting the other is admitted at most once, plus once per guard dropped mid-switch |
| `GateProtocol.WaitingCountsNeverUnderflow` | crates/chatty-broker/src/workload.rs:50-57 | in every run the counters that are decremented are positive |
| `ResidencyProtocol.EveryRunIsMemorySafe` | crates/chatty-metal/src/residency.rs:300-423 | in every interleaving, lost fetches included, a mapped slot holds exactly its expert's bytes, job destinations are distinct and unmapped, and a copy's source stays intact until adopted |
| `ResidencyProtocol.EveryRunPartitionsTheSlots` | crates/chatty-metal/src/residency.rs:330-383 | in every run each slot is free, reserved by one busy expert, or mapped by one expert |
| `ResidencyProtocol.ClaimsHoldUntilTheNextLayer` | crates/chatty-metal/src/residency.rs:211-284 | a claimed expert's slots and bytes stand through any steps up to the next layer, including promotions adopted mid-layer |
| `ResidencyProtocol.RequestedExpertIsProtectedOnceAdopted` | crates/chatty-metal/src/residency.rs:271-284 | an expert requested while cold is protected from the moment it is adopted |
| `ResidencyProtocol.EveryScheduleEndsTheWait` | crates/chatty-metal/src/residency.rs:427-442 | every schedule of workers and `adopt`, whatever fetches it loses, takes at most twice as many steps as there are jobs, and where it can take no more the awaited expert has arrived if and only if its own fetch was not lost |
| `ResidencyProtocol.LostFetchStaysCold` | crates/chatty-metal/src/residency.rs:510-538 | after a lost fetch the expert is cold in every continuation |
| `ResidencyPreload.PreloadIsARun` | crates/chatty-metal/src/residency.rs:446-475 | for a list of distinct, cold, idle experts all that `preload` does, in every schedule, is a run of the protocol, so that everything stated of runs holds of it, and it never copies from a slot that does not exist |
| `ResidencyPreload.BootIsFine` | crates/chatty-metal/src/residency.rs:446-475 | at boot every list of distinct experts is such a list |
| `ResidencyPreload.LostFetchHangsPreload` | crates/chatty-metal/src/residency.rs:468-474 | after one lost fetch no schedule lets `preload` return success |
| `ResidencyPreload.FetchKeepsInvIff` | crates/chatty-metal/src/residency.rs:300-312 | a fetch started without any check keeps the invariant if and only if the expert is idle, not in VRAM, and in RAM at most in the very slot it is given |
| `ResidencyPreload.ListedTwiceOwnsTwoSlots` | crates/chatty-metal/src/residency.rs:455-467 | an expert listed twice owns two RAM slots, of which its job writes the second and the search of `adopt` finds the first |
| `ExpertResidency.Residency.BeginLayer` | crates/chatty-metal/src/residency.rs:211-218 | refines the protocol's layer step, with the periodic decay of demand |
| `ExpertResidency.Residency.Claim` | crates/chatty-metal/src/residency.rs:238-250 | marks a resident expert and names the tier and slot that hold it |
| `ExpertResidency.Residency.FindVramSlot` | crates/chatty-metal/src/residency.rs:330-352 | finds a free slot, else the first unused slot of least demand below the limit, and fails only if there is none |
| `ExpertResidency.Residency.FindRamSlot` | crates/chatty-metal/src/residency.rs:354-382 | the same for RAM, where an expert also in VRAM costs nothing |
| `ExpertResidency.Residency.Request` | crates/chatty-metal/src/residency.rs:273-284 | protects the expert and starts its fetch if it is cold and idle; it fails exactly if no RAM slot can be taken |
| `ExpertResidency.Residency.Want` | crates/chatty-metal/src/residency.rs:288-298 | moves an expert one tier closer, or changes nothing for one of the listed reasons |
| `ExpertResidency.Residency.Adopt` | crates/chatty-metal/src/residency.rs:398-423 | refines the protocol's adopt step: the slot found by search is the one the job wrote |
| `ReadPlanner.CutItem` | crates/chatty-metal/src/store.rs:505-534 | the pieces of an extent lie in one 4 MiB window each and cover it |
| `ReadPlanner.PlanReadTasks` | crates/chatty-metal/src/store.rs:500-578 | fails exactly for a non-empty extent of an unknown shard or past 64 bits; else the pieces are parts of the extents and cover them, and the tasks group them |
| `ReadPlanner.GroupTasks` | crates/chatty-metal/src/store.rs:541-590 | every task's aligned span fits the 4 MiB buffer, holds its sub-reads, and could not have taken the next one |
| `ReadPlanner.TasksPartitionTheReads` | crates/chatty-metal/src/store.rs:541-578 | every sub-read belongs to exactly one task |
| `ReadExecution.Execute` | crates/chatty-metal/src/store.rs:180-219 | a task succeeds exactly if its shard reaches its required end, and then leaves memory as reading its sub-reads one by one would |
| `ReadExecution.CoalescedReadingIsSimpleReading` | crates/chatty-metal/src/store.rs:180-219 | for non-empty extents with disjoint destinations, and empty ones anywhere, the planned tasks in any order give the memory that reading the extents one by one gives |
| `ReadExecution.PlanFailsOnlyPastTheEnd` | crates/chatty-metal/src/store.rs:180-219 | every task finds its bytes if and only if every non-empty extent ends inside its shard |
| `ReaderPool.OkMeansEveryTaskRanOnce` | crates/chatty-metal/src/store.rs:370-432 | over every schedule, if the call returns Ok each task ran exactly once |
| `ReaderPool.NoWorkerOutlivesTheCall` | crates/chatty-metal/src/store.rs:370-432 | outside a batch no worker points at any tasks, and inside one only at its own |
| `ReaderPool.DrawsComeFromItsOwnBatch` | crates/chatty-metal/src/store.rs:266-281 | what a worker draws from the cursor is an unclaimed task of the batch it holds, or the end of it |
| `ReaderPool.NoGenerationTwice` | crates/chatty-metal/src/store.rs:448-498 | no worker takes a generation twice, nor an older one |
| `ReaderPool.SleeperIsOwedAReport` | crates/chatty-metal/src/store.rs:409-420 | while the caller sleeps on the condition variable, some worker has yet to report, so the last report cannot be lost |
| `ReaderPool.NobodySleepsThroughABatch` | crates/chatty-metal/src/store.rs:448-470 | a worker asleep on its condition variable has seen the batch there is, so no publication is missed |
| `ReaderPool.SomeThreadCanStep` | crates/chatty-metal/src/store.rs:370-498 | in every reachable state inside a call some thread can do some of its work, other than falling asleep or waking for nothing |
| `ExpertTables.Sweep` | crates/chatty-metal/src/store.rs:1485-1529 | the clock takes an owner-less slot as it is, or evicts an unpinned owner, and changes nothing else in the tables |
| `ExpertTables.Seek` | crates/chatty-metal/src/store.rs:1531-1556 | the victim search changes no owner, and offers only an unpinned one that the hot expert outscores |
| `ExpertBatches.CleanMeansDistinct` | crates/chatty-metal/src/store.rs:1173-1213 | from agreeing tables, no sweep of a batch meets a hole if and only if no two misses hold one slot |
| `ExpertBatches.ReserveKeepsInv` | crates/chatty-metal/src/store.rs:1173-1213 | reserving keeps the tables inverse, holds a slot for exactly the cold experts, and accounts for every owner-less slot |
| `ExpertContents.BindOneKeepsInv` | crates/chatty-metal/src/store.rs:1219-1262 | binding a filled slot keeps contents and views right |
| `ExpertContents.PromoteKeepsTables` | crates/chatty-metal/src/store.rs:1287-1307 | moving a hit into a free VRAM slot keeps tables, free lists and contents in agreement |
| `ExpertContents.ExchangeKeepsTables` | crates/chatty-metal/src/store.rs:1308-1350 | swapping through staging slot 0 keeps both experts' bytes and the tables in agreement |
| `ExpertContents.ServeOneKeepsInv` | crates/chatty-metal/src/store.rs:1264-1374 | serving a hit cannot panic from an agreeing state, and keeps every view given so far right |
| `ExpertViews.SharedSlotShowsTwice` | crates/chatty-metal/src/store.rs:1219-1374 | two misses that hold one slot are answered with that slot, or with two staging copies of it that nothing later overwrites |
| `ExpertViews.RequestKeepsAgreement` | crates/chatty-metal/src/store.rs:1116-1387 | after a successful request the tables are mutually inverse if and only if no sweep met an owner-less slot; then slots hold their owners' bytes and every view addresses its expert, and otherwise two experts are answered with the same bytes; for experts that differ, all views are right if and only if the request was clean; there is no panic |
| `ExpertRuns.EveryFineRunIsSound` | crates/chatty-metal/src/store.rs:1116-1387 | over every run from an empty cache, refusals included: tables inverse, no expert in both tiers, contents right and no panic throughout, if and only if every success was clean and every refusal harmless |
| `ExpertSources.SourcesAreTrue` | crates/chatty-metal/src/store.rs:1219-1386 | every view of a successful request says truly whether its expert was cold, in RAM or in VRAM before it |
| `ExpertRequests.OneMissIsClean` | crates/chatty-metal/src/store.rs:1485-1494 | a batch with at most one cold expert meets the guard |
| `ExpertCollision.FreeSlotsSuffice` | crates/chatty-metal/src/store.rs:1184-1211 | a batch with no more cold experts than free slots meets the guard |
| `ExpertCollision.OneMissTooMany` | crates/chatty-metal/src/store.rs:1485-1494 | n RAM slots and n + 1 cold experts, n from 1 to 15: the request succeeds, the tables disagree, and two views show the same bytes |
| `ExpertRefusals.AbandonedReservation` | crates/chatty-metal/src/store.rs:1173-1217 | a reservation given up, by its own failure or by a failed read, keeps the tables inverse and leaves no owner-less slot exactly if it had reserved none |
| `ExpertRefusals.RefusalIsHarmlessIff` | crates/chatty-metal/src/store.rs:1116-1387 | a refused request leaves a sound cache sound if and only if its cause was harmless: a first index out of range, too many experts, no slot reserved, or a failed copy in a clean request |
| `ExpertPanics.PinsUpToTheFirstBadIndex` | crates/chatty-metal/src/store.rs:1128-1135 | for every list and any pins before, exactly the experts before the first bad index are pinned, and those not pinned before are the batch |
| `ExpertPanics.ServePanicsIff` | crates/chatty-metal/src/store.rs:1264-1350 | serving a placed expert panics if and only if the search for its victim stops at an owner-less slot |
| `ExpertPanics.PanicsIff` | crates/chatty-metal/src/store.rs:1116-1387 | from any tables a request that is not refused panics if and only if it asks for an expert pinned before it or one of its victim searches stops at an owner-less slot |
| `ExpertPanics.PanicsIffPinnedBefore` | crates/chatty-metal/src/store.rs:1381-1386 | from agreeing tables no victim search stops at an owner-less slot, so only a pinned expert makes a request panic |
| `ExpertPanics.SoundCannotPanic` | crates/chatty-metal/src/store.rs:1116-1387 | from a sound cache no request panics |
| `ExpertHoleRun.FailedReadLeadsToPanic` | crates/chatty-metal/src/store.rs:1215-1217 | from an empty cache with one slot in each tier: a failed read, then two requests that succeed and a third that panics |
| `ExpertCaches.ExpertCache.AllocRamSlot` | crates/chatty-metal/src/store.rs:1485-1508 | takes a free RAM slot or sweeps for one, as specified |
| `ExpertCaches.ExpertCache.SelectVictim` | crates/chatty-metal/src/store.rs:1531-1556 | searches for a VRAM victim as specified |
| `ExpertCaches.ExpertCache.ReserveSlots` | crates/chatty-metal/src/store.rs:1173-1213 | phase 1 reserves as specified, stopping at the first failure |
| `ExpertCaches.ExpertCache.ServeHits` | crates/chatty-metal/src/store.rs:1264-1374 | phase 2 serves as specified |
| `ExpertCaches.ExpertCache.AcquireLayer` | crates/chatty-metal/src/store.rs:1116-1153 | a whole request leaves fields, memory and answer as the specification of the results above says, on every path, and panics exactly for a pinned expert or a missing victim, from any tables |
| `ExpertCaches.ExpertCache.AcquireFromSound` | crates/chatty-metal/src/store.rs:1116-1153 | a caller of a sound cache gets all of the above: agreement and right views exactly if the request was clean, otherwise two experts with the same bytes, a sound cache after exactly the harmless refusals, and no panic |
| `EngramCaches.TagsAreInjective` | crates/chatty-metal/src/store.rs:1849-1852 | tags are non-zero, fit 64 bits and tell tables and rows apart |
| `EngramCaches.SetIndex` | crates/chatty-metal/src/store.rs:1777-1780 | every tag has a set inside the cache |
| `EngramCaches.ClockVictim` | crates/chatty-metal/src/store.rs:1825-1837 | the victim is the first way from the hand with a clear bit, or the hand, within nine probes; exactly the bits passed over are cleared |
| `EngramCaches.StoreKeepsConsistent` | crates/chatty-metal/src/store.rs:1804-1846 | storing a row keeps every tag in its own set at most once, sets filled from the front, and payloads right |
| `EngramCaches.EngramCache.ProbeHit` | crates/chatty-metal/src/store.rs:1782-1801 | a hit has the tag; a miss means the tag is nowhere in the cache |
| `EngramCaches.EngramCache.InsertRow` | crates/chatty-metal/src/store.rs:1804-1846 | exactly one way changes, the tag is stored, and an eviction is reported exactly if another row was there |
| `EngramCaches.EngramCache.LookupBatch` | crates/chatty-metal/src/store.rs:1676-1775 | from every consistent cache a successful batch gets what direct reads give, zeros for skipped rows, duplicates included; it fails only for bad arguments or a failed read; the cache stays consistent on every path |
| `EngramLookup.HashedRowsAreAccepted` | crates/chatty-metal/src/store.rs:1711-1716 | the rows a layer hashes to are never rejected by the cache |
| `Primes.PassesIsPrime` | crates/chatty-metal/src/engram.rs:147-157 | from 3 on, the trial test is primality |
| `Primes.NextPrimeIsTheLeast` | crates/chatty-metal/src/engram.rs:147-157 | the search ends with the least prime above its argument if and only if the argument is at least 2 |
| `EngramHash.PrimesAreConsecutive` | crates/chatty-metal/src/engram.rs:54-98 | the column sizes are consecutive primes |
| `EngramHash.New` | crates/chatty-metal/src/engram.rs:54-98 | a hasher is built exactly for the expected vocabulary, pad token, layers and table sizes |
| `EngramHash.BuiltHasherIsOk` | crates/chatty-metal/src/engram.rs:54-98 | a hasher built over a token map of the compressed vocabulary meets what `Push` asks of it |
| `EngramHash.ColumnsPartitionTheTable` | crates/chatty-metal/src/engram.rs:73-92 | every row of a table belongs to exactly one column |
| `EngramHash.RowsStayInTheirColumns` | crates/chatty-metal/src/engram.rs:101-132 | every hashed row lies in its column's interval and inside the table |
| `EngramHash.ProductFits` | crates/chatty-metal/src/engram.rs:114-121 | with tokens of the compressed vocabulary no product overflows 64 bits |
| `EngramHash.PushesCompose` | crates/chatty-metal/src/engram.rs:101-132 | pushing a then b hashes as pushing a followed by b in one call |
| `EngramHash.EngramHasher.Push` | crates/chatty-metal/src/engram.rs:101-132 | extends the history and yields the rows of every token, layer and column, in order |
| `RouteReplay.Lru.Touch` | crates/chatty-metal/src/routing.rs:140-149 | a hit moves the key to the front of the recency order |
| `RouteReplay.Lru.Insert` | crates/chatty-metal/src/routing.rs:156-176 | the new key is first, and a full cache gives up its least recent key |
| `RouteReplay.LruHoldsTheMostRecent` | crates/chatty-metal/src/routing.rs:120-176 | an LRU of size n holds the n most recent keys of the trace |
| `RouteReplay.StepKeepsSplit` | crates/chatty-metal/src/routing.rs:91-111 | the tiers always split the most recent V + R keys in order |
| `RouteReplay.TiersAreDisjoint` | crates/chatty-metal/src/routing.rs:91-111 | no key is in both tiers or twice in one |
| `RouteReplay.Replay` | crates/chatty-metal/src/routing.rs:91-111 | VRAM hits are those of one LRU of V slots, VRAM and RAM hits those of one LRU of V + R slots, and the counts sum to the trace |
| `RouteReplay.MoreSlotsNeverHitLess` | crates/chatty-metal/src/routing.rs:91-111 | hits never fall as capacity grows |
| `Tokenizer.ByteChars` | crates/chatty-metal/src/tokenizer.rs:283-297 | the counted table of 256 characters is the closed form |
| `Tokenizer.ByteCharsAreReversible` | crates/chatty-metal/src/tokenizer.rs:283-297 | the map from bytes to characters has an exact inverse |
| `Tokenizer.Parse` | crates/chatty-metal/src/tokenizer.rs:65-127 | a file is accepted exactly if every byte and every merge is named; the tables hold what the file says, the last merge line of a pair winning |
| `Tokenizer.BuiltTablesAreCoherent` | crates/chatty-metal/src/tokenizer.rs:65-127 | with distinct vocabulary ids that added tokens do not overwrite, every merge joins the texts it replaces |
| `Tokenizer.MergePass` | crates/chatty-metal/src/tokenizer.rs:175-188 | the in-place compaction is the left-to-right replacement of the pair |
| `Tokenizer.BestPair` | crates/chatty-metal/src/tokenizer.rs:165-172 | finds the first of the pairs of least rank, or that there is none |
| `Tokenizer.Bpe` | crates/chatty-metal/src/tokenizer.rs:162-190 | passes over the best pair until no mergeable pair is left |
| `Tokenizer.SplitIsolated` | crates/chatty-metal/src/tokenizer.rs:234-252 | yields the matches and the gaps between them, the rest as one piece after a failure |
| `Tokenizer.PiecesSpellTheText` | crates/chatty-metal/src/tokenizer.rs:234-252 | splitting loses and reorders nothing |
| `Tokenizer.Encode` | crates/chatty-metal/src/tokenizer.rs:146-160 | splits in order, then merges each piece |
| `Tokenizer.DecodeInvertsEncode` | crates/chatty-metal/src/tokenizer.rs:146-207 | decoding gives back every encoded text |
| `Tokenizer.OnlyVocabularyIsProduced` | crates/chatty-metal/src/tokenizer.rs:145-160 | every id produced is a vocabulary id |
| `TokenizerSpecials.MergedSplits` | crates/chatty-metal/src/tokenizer.rs:162-190 | merging is local: wherever the result is cut, the input can be cut so that each part merges to its own side |
| `TokenizerSpecials.ProducedIffEncodesItself` | crates/chatty-metal/src/tokenizer.rs:162-190 | an id is produced from some bytes if and only if it encodes its own bytes to itself |
| `TokenizerSpecials.ForgeableIffEncodesItself` | crates/chatty-metal/src/tokenizer.rs:145-160 | no text produces an id that does not encode itself; an id whose text the patterns keep whole is produced exactly if it does |
| `TokenizerSpecials.SpecialsAreSafeIff` | crates/chatty-metal/src/tokenizer.rs:145-160 | text cannot forge a special token if and only if none of them encodes itself |
| `TokenizerSpecials.NoSpecialIdIsProduced` | crates/chatty-metal/src/tokenizer.rs:145-160 | where no added token shares an id with the vocabulary, no text produces a special id |
| `TokenizerSpecials.SharedIdFileIsFine` | crates/chatty-metal/src/tokenizer.rs:79-82 | the file of the next row is accepted and unambiguous |
| `TokenizerSpecials.SharedIdIsForged` | crates/chatty-metal/src/tokenizer.rs:79-82 | a special token that shares a merged id is produced by plain text |
| `Utf8.LongestValidPrefix` | crates/chatty-metal/src/server.rs:546-549 | the reported length is that of the longest valid UTF-8 prefix |
| `Utf8.TextRoundTrip` | crates/chatty-metal/src/tokenizer.rs:204-207 | lossy decoding is exact on encoded text |
| `AttentionRing.SeesOnlyThePast` | crates/chatty-metal/src/gpu_model.rs:1361-1387 | what a position sees does not depend on later positions |
| `AttentionRing.PutRows` | crates/chatty-metal/src/gpu_model.rs:1339-1353 | after writing a chunk the ring holds the newest rows at their positions modulo its size |
| `AttentionRing.GpuLayer.PoolPairs` | crates/chatty-metal/src/gpu_model.rs:1696-1727 | each group completed by a chunk is pooled from its first slot and the next, also across chunk and ring boundaries; up to a ratio of 3 these are its own first two rows |
| `AttentionRing.GpuRowIsTheGroup` | crates/chatty-metal/src/gpu_model.rs:1701-1727 | what the GPU pools is the group if and only if the ratio is at most 2 |
| `AttentionRing.GpuSeesRightly` | crates/chatty-metal/src/gpu_model.rs:1361-1387 | a query of the GPU sees what it should if and only if the ratio is at most 2 or no group is complete; its window is always right |
| `AttentionRing.GpuLayer.Compress` | crates/chatty-metal/src/gpu_model.rs:1634-1799 | at every ratio the store then has n / ratio rows, row i pooled for group i, and is never full |
| `AttentionRing.GpuLayer.Forward` | crates/chatty-metal/src/gpu_model.rs:851-860 | at every ratio, for a chunk of 1 to 64 rows in the context: each query reads exactly its last min(p + 1, 128) rows and the rows pooled for every group complete by then |
| `AttentionRing.ReferenceLayer.CompressRow` | crates/chatty-metal/src/reference.rs:1178-1190 | the open group's rows are in their slots, and the last row of a group pools exactly that group |
| `AttentionRing.ReferenceLayer.Forward` | crates/chatty-metal/src/reference.rs:1076-1108 | the same for the reference, with chunks of 1 to 256 |
| `AttentionRing.GpuAgreesWithReference` | crates/chatty-metal/src/reference.rs:1165-1232 | however one sequence is cut into chunks on either side, all windows agree, and all queries agree if and only if the ratio is at most 2 or no group is complete |
| `AttentionRing.RatioThreeDisagrees` | crates/chatty-metal/src/reference.rs:1178-1190 | at ratio 3 the GPU pools two of the three rows that the reference pools |
| `Streaming.ReleaseContinues` | crates/chatty-metal/src/server.rs:545-552 | releasing the valid prefix of the pending bytes keeps the text the longest valid prefix of all bytes |
| `Streaming.Release` | crates/chatty-metal/src/server.rs:544-566 | a visible token releases exactly what has become valid |
| `Streaming.Hide` | crates/chatty-metal/src/server.rs:524-543 | a reasoning token shows nothing; the first one sends the marker |
| `Streaming.Prefill` | crates/chatty-metal/src/server.rs:469-490 | the prompt goes to the model in chunks of 1 to 64 inside the context |
| `Streaming.Decode` | crates/chatty-metal/src/server.rs:509-581 | the loop ends for the reason it reports, with at most the asked number of tokens, each the sample of its turn |
| `Streaming.Generate` | crates/chatty-metal/src/server.rs:435-601 | for every request and environment: consecutive chunk numbers, text the longest valid prefix, bounded tokens, and no model call outside the context or with a chunk outside 1 to 64 |
| `Blit.DisplayLayout` | crates/chatty-metal/src/monitor.rs:758-765 | the scaled canvas stays on the display, and all of it is shown where it fits |
| `Blit.ChangedSpan` | crates/chatty-metal/src/monitor.rs:785-793 | the span runs from the first to the last changed column |
| `Blit.Scanout.WriteSpan` | crates/chatty-metal/src/monitor.rs:796-804 | writes exactly the given part of one line, and logs it |
| `Blit.SpansStayInside` | crates/chatty-metal/src/monitor.rs:758-804 | the changed span of a changed row stays on the display and on lines of that row |
| `Blit.Monitor.BlitChanges` | crates/chatty-metal/src/monitor.rs:769-807 | if the screen was the scaled canvas last shown, it is the scaled new canvas after; every write logged is the changed span of a row that changed, every pixel that changed lies in a logged write, and the buffers are swapped |
| `AqlQueue.UnretiredPacketsAreIntact` | crates/chatty-metal/src/kfd.rs:616-664 | in every run every unretired packet and its arguments are as they were submitted |
| `AqlQueue.SlotsAreFreeBeforeReuse` | crates/chatty-metal/src/gpu_model.rs:325-390 | in every run the ring slot and the argument slot about to be written belong to no unretired packet |
| `AqlQueue.TheRingNeverOverflows` | crates/chatty-metal/src/gpu_model.rs:56-58 | in every run at most 902 packets are unretired, order barriers and the sync barrier included |

## Left out

- Numbers: f32 arithmetic, quantization, shaders and SIMD are not modelled; rows, latents and slots are opaque values.
- Devices: KFD and DRM ioctls, mmap, boot, sensors, fonts, and the DMA engine itself; a read or copy succeeds or fails as a parameter says.
- Formats: safetensors catalogs, JSON, wire frames, SQL and authentication; parsed values are parameters.
- Regular expressions and Unicode normalisation: a pattern is any function that yields ordered, non-overlapping matches; `compressed_map` is not modelled.
- Text positions: matches are counted in characters, where the code counts bytes at character boundaries.
- Hash map order: a vocabulary with repeated ids is walked in an arbitrary order given as a parameter.
- Integer widths: counters of 64 bits are unbounded, except where a product, a tag, a saturating count or an extent's end is the point.
- ReadPlanner.PlanReadTasks: window arithmetic within 4 MiB of 2^64 is unbounded, where the code would overflow; no file is that long.
- ReaderPool.OkMeansEveryTaskRanOnce: shutdown of the pool is not modelled.
- ResidencyProtocol.EveryScheduleEndsTheWait: `load_now` is a sequence of the protocol's steps, not a method; that a schedule keeps going is for the threads.
- ResidencyPreload.PreloadIsARun: a step system over the main thread's position, which may adopt reports at more points than the code does; an index out of range panics in the code and is not modelled.
- ResidencyProtocol.EveryRunIsMemorySafe: channels deliver in any order, which includes the order the code has.
- GateProtocol.NoChatModelUnderImageWork: for a fixed configuration in which both services share a host and chat models load only under a text guard.
- ExpertViews.RequestKeepsAgreement: the six tensor addresses inside a slot are its base plus fixed offsets and are not modelled; a copy carries the whole slot where the code copies the expert's bytes; statistics are not modelled.
- EngramCaches.TagsAreInjective: for fewer than 65535 tables of at most 2^48 rows, as the tag layout assumes.
- EngramCaches.ClockVictim: eight bits and a hand, not their packing into 16 bits; rows are whole values, not weight and scale bytes side by side.
- TokenizerSpecials.SpecialsAreSafeIff: for special tokens whose bytes are a text that the patterns leave whole; for others only the direction that no text forges a token that does not encode itself.
- AttentionRing.GpuLayer.Forward: past a ratio of 3 only the slots a pooled row comes from are stated, since which row a slot holds then depends on the chunks; one source layer with its own store; which visible groups a query selects depends on scores and is left open.
- AqlQueue.SlotsAreFreeBeforeReuse: runs without a timed-out sync; a step system rather than methods, because the device runs beside the producer.
- Streaming.Generate: sampling, timing and the status board; sequence numbers cannot reach the point where 32 bits wrap.
- Blit.Monitor.BlitChanges: palette conversion and the choice of a display mode.
- `plan.rs`, `world.rs`, request validators, the GUI, packaging, TLS and logging would only add easy members.
