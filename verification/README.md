# Verified model of the concurrent hash table and the thread pool

This project models, in Dafny 4.11, the two vendored components of the server that contain most of its shared state and
arithmetic, and proves what they promise:

- the open-addressing hash table of `external/boost_concurrent.hpp`: its sequential core, its concurrent form with
  optimistic insertion, the locks below it, and the fast forms it relies on (bit-interleaved metadata, bulk visitation,
  portable 64 x 64 bit multiplication, byte-range hashing);
- the thread pool of `external/BS_thread_pool.hpp`: the protocol of its one mutex, two condition variables and
  counters, and the partitioner behind its parallel loops.

`dafny verify dfyconfig.toml` checks the whole project.

## How the pieces fit

| files | modules | what they hold |
|---|---|---|
| `Prober.dfy`, `SizePolicy.dfy`, `BitOps.dfy`, `Wrappers.dfy` | `Pow2Arith`, `QuadraticProber`, `SizePolicy`, `BitOps`, `Wrappers` | powers of two, the prober object, capacities, single bits of words |
| `Groups.dfy`, `Group15.dfy` | `Groups`, `InterleavedWords`, `Group15` | the abstract metadata of a group of 15 slots, and the two physical layouts as classes that refine it |
| `Arrays.dfy`, `ArrayLaws.dfy` | `Arrays`, `ArrayLaws` | group and element arrays as a value; the probe invariant; what insertion, erasure, clearing and rehashing do to the mathematical map the arrays stand for |
| `TableArrays.dfy`, `TableCore.dfy`, `TableAlgebra.dfy`, `TableVisits.dfy`, `ReserveShortfall.dfy` | `TableStorage`, `TableCores`, `TableAlgebra`, `TableVisits`, `ReserveShortfall` | the sequential table as classes over arrays updated in place: find, emplace, erase, rehash, reserve, clear, equality, merge, single and bulk visitation; a table for which reserve does not suffice |
| `ConcurrentTable.dfy` | `ConcurrentTable` | the concurrent table as a step machine over any number of threads, exclusive operations included |
| `Concurrent*.dfy` (the others) | `ConcurrentInvariant`, ... | its invariant, kept by every step; the theorems over all runs; the refinement to an atomic map; the justification of unsuccessful lookups; completed calls are linearizable; undisturbed calls return |
| `RwSpinlock.dfy`, `ContainerLocks.dfy` | `RwSpinlock`, `ContainerLocks` | the one-word lock as a step machine that refines the abstract lock used above; the two-level locking scheme |
| `Mulx.dfy`, `HashRange.dfy` | `Mulx`, `ByteWords`, `HashRange64`, `HashRange32` | the portable multiplication; the two forms of hashing a byte range |
| `ThreadPool.dfy`, `PoolWakeups.dfy`, `Blocks.dfy` | `ThreadPool`, `PoolWakeups`, `Blocks` | the pool as a step machine; who is woken and who is stranded; the partition of a loop |

### The central ideas

*Probe invariant.* `Arrays.Reaches`: every group that a lookup for an element's hash visits before the element's group
has the overflow bit of that hash set. Insertion sets these bits, erasure leaves them, clearing and rehashing start
afresh; it is why a lookup may stop at the first group that is not overflowed.

*Presence.* In the concurrent table a key is logically present (`ConcurrentInvariant.Present`) from the moment its
inserter has found the insertion counter unchanged. An inserter that has read the current value of the counter
(`Undisturbed`) has every slot present under its key still ahead of its lookup (`AheadOk`); that excludes duplicates.

*Maximum load.* The count that stays below `ml` is that of live elements, reservations found to be within `ml`,
undecided reservations whose ticket is within the current `ml`, and erasures whose slot is still marked and not yet
paid for (`CountsOk`). No prophecy is needed.

*Acts.* A call changes the abstract map, or reads it at its key, in one step of its own (`ConcurrentCalls.ActOf`): the
increment of the insertion counter that matches, or the step at the slot found. A call that returns without an act has
come past a moment at which its key was absent.

*Progress.* A thread alone in the container has a number of steps left (`ConcurrentProgress.Left`) that every step of its
makes smaller; a table at its maximum load costs it a rehash and a second attempt.

*Served.* In the pool, a nonempty unpaused queue always has a worker that is not asleep or somebody about to notify
(`PoolWakeups.Served`). One step of the code breaks this, and is singled out exactly.

### Where the code falls short

- `reset()` of an unpaused pool with pausing enabled sets `paused` and later clears it without notifying anybody
  (`external/BS_thread_pool.hpp:1569-1577`). The documentation (line 1561) promises that tasks waiting in the queue
  before the reset will then be executed by the new threads. `PoolWakeups.ResetStrandsTask` is a run with a task detached
  before `reset()` is called: when it returns, the task is still queued, the pool is not paused, every worker is asleep
  and nobody is about to notify. What a caller has to check is whether the pool is paused, or cannot be:
  `PoolWakeups.ResetStrandsExactly` proves that this decides the matter both ways, and `PoolWakeups.ResetWhilePaused` that
  a run whose resets are all called like that never loses a wakeup. Of the other runs, `PoolWakeups.NoLostWakeup` says
  exactly which ones are unharmed.
- `purge()` and `pause()` can make the predicate of a blocked `wait()` true without notifying it
  (`PoolWakeups.PurgeStrandsWaiter`, `PoolWakeups.PauseStrandsWaiter`). They do so exactly if no worker is busy
  (`PoolWakeups.PauseOrPurgeTells`); a run overlooks no blocked `wait()` exactly if it contains no such call
  (`PoolWakeups.BlockedWaiterTold`).
- `reserve(n)` does not always leave room for `n` elements below the maximum load: if the capacity is already the one that
  `reserve` would choose, `ml` stays where earlier erasures have left it. `ReserveShortfall.ReserveFallsShort` is a table
  with capacity 29 that `reserve(25)` leaves with an `ml` of 24, and `TableCores.TableCore.Reserve` states the condition,
  which can be evaluated before the call, for all tables.

## Modelling assumptions

- Atomic steps interleave with sequential consistency; a match of 15 metadata bytes without a lock reads them one at a
  time, in any interleaving with other threads.
- A key carries its mixed hash, so that equal keys have equal hashes and the hash function is otherwise arbitrary.
- The maximum load factor is exactly 7/8 over integers. Insertion counters are unbounded.
- The table grows to at most 2^63 groups; a request beyond that, and running out of memory, are not modelled.
- Visitors neither change keys nor use the table they are called from.
- An operation under exclusive container access other than `rehash_if_full` (clear, rehash, reserve, merge, swap) is one
  step of the concurrent machine, which may leave any consistent table behind; what these operations do is the subject of
  the sequential classes.
- The concurrent step machine uses abstract readers-writer locks; `RwSpinlock.RefinesLock` shows that the spinlock is
  one. Pending writers may hold back readers, which `ContainerLocks.Enabled` takes into account.
- In the pool, at most one thread is in `wait()` or `reset()` at a time; any number of threads detach, pause, unpause
  and purge. Threads blocked on a condition variable may wake up spuriously.

## Model

| member | source | states |
|---|---|---|
| `QuadraticProber.ProbeTriangular` | external/boost_concurrent.hpp:8640-8645 | the position after any number of `next` calls is the start plus a triangular number, modulo the number of groups |
| `QuadraticProber.ProbeInjective` | external/boost_concurrent.hpp:8623-8649 | over 2^n groups, no two of the first 2^n positions are the same |
| `QuadraticProber.ProbeCovers` | external/boost_concurrent.hpp:8635-8645 | the first 2^n positions reach every one of 2^n groups |
| `QuadraticProber.Prober.Next` | external/boost_concurrent.hpp:8640-8645 | masking keeps the position on the probe sequence; the result is false exactly when the whole array has been traversed |
| `Pow2Arith.MaskIsMod` | external/boost_concurrent.hpp:8623-8626 | ANDing with 2^n - 1 is reduction modulo 2^n, for every word |
| `SizePolicy.SizeLeast` | external/boost_concurrent.hpp:8592-8604 | `size(size_index(n))` is at least n, and the least permissible size that is |
| `SizePolicy.PositionInRange` | external/boost_concurrent.hpp:8608-8611 | every hash is mapped to a valid group, for every size index |
| `SizePolicy.PositionTop` | external/boost_concurrent.hpp:8608-8611 | the group of a hash is given by its top bits: equally many hashes, in order, for each group |
| `SizePolicy.CapacityLeast` | external/boost_concurrent.hpp:10025-10028 | `capacity_for(n)` holds n elements, and no smaller permissible capacity does |
| `SizePolicy.CapacityIdempotent` | external/boost_concurrent.hpp:10025-10028 | `capacity_for` applied to one of its results gives that result back |
| `SizePolicy.LoadBounds` | external/boost_concurrent.hpp:9307-9318 | the initial maximum load is 7/8 of the capacity, rounded down, or the whole capacity up to 29 slots |
| `SizePolicy.LoadLeast` | external/boost_concurrent.hpp:9582-9585 | the capacity asked for n elements is the least of which 7/8 are at least n |
| `SizePolicy.ReserveSuffices` | external/boost_concurrent.hpp:9582-9585 | the capacity chosen for n elements at load 7/8 has an initial maximum load of at least n |
| `SizePolicy.GrowthSuffices` | external/boost_concurrent.hpp:9868-9882 | arrays for growth have a maximum load above the current size by one and one 61st of it, and are the least permissible ones whose 7/8 allow that |
| `Groups.ReducedHash` | external/boost_concurrent.hpp:8480-8502 | the reduced hash is neither mark, agrees with the hash modulo 8, and is the low byte of the hash unless that is a mark |
| `InterleavedWords.MatchBit` | external/boost_concurrent.hpp:8537-8555 | in the interleaved layout, bit q of the match mask is set exactly when slot q holds the byte looked for |
| `InterleavedWords.SetElsewhere` | external/boost_concurrent.hpp:8511-8535 | writing one slot leaves every other slot of the interleaved word as it was |
| `Group15.ScanStep` | external/boost_concurrent.hpp:9483-9492 | counting trailing zeros finds the lowest slot of a mask, and `mask&=mask-1` removes just that one |
| `Group15.InterleavedGroup.Initialize` | external/boost_concurrent.hpp:8390-8390 | all logical bytes become 0 and all overflow bits clear |
| `Group15.InterleavedGroup.Set` | external/boost_concurrent.hpp:8392-8396 | writing a reduced hash into the two interleaved words is writing one logical byte, and touches no overflow bit |
| `Group15.InterleavedGroup.Reset` | external/boost_concurrent.hpp:8413-8417 | the logical byte becomes 0, nothing else changes |
| `Group15.InterleavedGroup.SetSentinel` | external/boost_concurrent.hpp:8398-8401 | the logical byte of the last slot becomes 1, nothing else changes |
| `Group15.InterleavedGroup.MarkOverflow` | external/boost_concurrent.hpp:8436-8439 | exactly the overflow bit of the hash modulo 8 becomes set |
| `Group15.InterleavedGroup.Match` | external/boost_concurrent.hpp:8426-8429 | the computed mask names exactly the slots whose logical byte is the reduced hash |
| `Group15.InterleavedGroup.MatchAvailable` | external/boost_concurrent.hpp:8450-8456 | the computed mask names exactly the slots whose logical byte is 0 |
| `Group15.InterleavedGroup.MatchOccupied` | external/boost_concurrent.hpp:8465-8471 | the computed mask names exactly the slots whose logical byte is not 0 |
| `Group15.InterleavedGroup.IsOccupied` | external/boost_concurrent.hpp:8458-8463 | true exactly if the logical byte is not 0 |
| `Group15.InterleavedGroup.IsSentinel` | external/boost_concurrent.hpp:8403-8411 | true exactly for the last slot, if its logical byte is 1 |
| `Group15.InterleavedGroup.IsNotOverflowed` | external/boost_concurrent.hpp:8431-8434 | true exactly if the overflow bit of the hash is clear |
| `Group15.InterleavedGroup.MaybeCausedOverflow` | external/boost_concurrent.hpp:8441-8448 | the three low bits gathered from the interleaved words select the overflow bit of the slot's own byte |
| `Group15.RegularGroup.Set` | external/boost_concurrent.hpp:7997-8001 | the 16-byte layout: one metadata byte is written, the overflow byte stays |
| `Group15.RegularGroup.MarkOverflow` | external/boost_concurrent.hpp:8043-8046 | the OR into the overflow byte sets exactly one logical overflow bit |
| `Group15.RegularGroup.IsNotOverflowed` | external/boost_concurrent.hpp:8036-8041 | the AND with a shifted 1 tests exactly that bit |
| `Group15.RegularGroup.MaybeCausedOverflow` | external/boost_concurrent.hpp:8048-8053 | the slot's byte stands in for the hash when testing for overflow |
| `Group15.RegularGroup.Match` | external/boost_concurrent.hpp:8030-8034 | byte-wise comparison names exactly the slots with the reduced hash |
| `Group15.Replay` | external/boost_concurrent.hpp:8378-8558 | any sequence of changes leaves both layouts with the same logical contents |
| `Group15.LayoutsAgree` | external/boost_concurrent.hpp:8378-8558 | with the same logical contents, both layouts answer every query alike |
| `Arrays.EmplacePlaces` | external/boost_concurrent.hpp:10115-10134 | with a free slot ahead, insertion takes a free slot, puts the element there, makes it reachable by lookup, and keeps all else but added overflow marks |
| `Arrays.PlacedKeepsSlots` | external/boost_concurrent.hpp:10115-10134 | an insertion keeps every other element reachable by lookup |
| `ArrayLaws.SlotCount` | external/boost_concurrent.hpp:9558-9561 | an allocated table has exactly `capacity()` element slots, whatever its size |
| `ArrayLaws.FreeSlotReached` | external/boost_concurrent.hpp:10115-10134 | as long as some slot is free, probing for any hash comes across a free slot |
| `ArrayLaws.EmplaceValid` | external/boost_concurrent.hpp:10115-10134 | inserting an absent key into a valid table adds exactly that key and value, and keeps the probe invariant |
| `ArrayLaws.EraseValid` | external/boost_concurrent.hpp:9441-9446 | erasing removes exactly one key; the probe invariant needs no overflow bit to be cleared |
| `ArrayLaws.NewValid` | external/boost_concurrent.hpp:8840-8848 | new arrays are valid and empty, with the capacity asked for |
| `ArrayLaws.TransferAll` | external/boost_concurrent.hpp:10036-10071 | moving all elements into other arrays gives a valid table holding both contents |
| `ArrayLaws.KeyCount` | external/boost_concurrent.hpp:9437-9438 | there are as many keys as occupied slots, so that size is the size of the map |
| `TableStorage.NothingBeyond` | external/boost_concurrent.hpp:9493-9497 | if no earlier group holds the key and the first group not overflowed does not either, the key is nowhere |
| `TableStorage.AllPassedOver` | external/boost_concurrent.hpp:9499-9504 | if the prober has traversed the whole array without finding the key, the key is nowhere |
| `TableStorage.TableArrays.constructor` | external/boost_concurrent.hpp:8840-8848 | allocates wiped groups with the sentinel set, or shared dummy groups and no elements for size 0 |
| `TableStorage.TableArrays.Find` | external/boost_concurrent.hpp:9468-9504 | succeeds exactly if the key is in the mathematical map, and then returns the slot holding it; reads constructed elements only |
| `TableStorage.TableArrays.Advance` | external/boost_concurrent.hpp:9493-9500 | goes on exactly past overflowed groups, until the array has been traversed; when it stops, the key is absent |
| `TableStorage.TableArrays.EmplaceAt` | external/boost_concurrent.hpp:10115-10134 | the probing loop terminates when a slot is free and yields exactly the specified arrays |
| `TableCores.TableCore.constructor` | external/boost_concurrent.hpp:9851-9857 | an empty table satisfies the invariant: exact size, size within ml, ml within the initial maximum load |
| `TableCores.TableCore.RecoverSlot` | external/boost_concurrent.hpp:10009-10018 | lowers ml exactly if the slot's byte indicates possible overflow, frees the slot, decrements size; neither counter underflows |
| `TableCores.TableCore.Erase` | external/boost_concurrent.hpp:9441-9446 | removes exactly one key from the map and keeps the invariant |
| `TableCores.TransferGroup` | external/boost_concurrent.hpp:10038-10043 | moves exactly the occupied slots of a group, never the sentinel, in order |
| `TableCores.TableCore.UncheckedRehash` | external/boost_concurrent.hpp:10036-10071 | the given arrays become the table's; its contents join theirs, ml is reset |
| `TableCores.TableCore.EmplaceWithRehash` | external/boost_concurrent.hpp:9729-9751 | inserting first and rehashing then gives the old map plus the new element, and size within ml |
| `TableCores.TableCore.Emplace` | external/boost_concurrent.hpp:11988-12004 | inserts exactly if the key is absent; the map gains that element and nothing else, size follows, an existing element is left alone; the capacity changes only at the maximum load, and then to that for growth |
| `TableCores.LoadKept` | external/boost_concurrent.hpp:9307-9318 | a consistent table of more than two groups is never filled beyond 7/8 |
| `TableCores.GrowsAtLoad` | external/boost_concurrent.hpp:11997-12002 | as long as no erasure has lowered ml, the table grows exactly when one more element would exceed a load of 7/8, and to a larger capacity |
| `TableCores.TableCore.Rehash` | external/boost_concurrent.hpp:9573-9580 | keeps the map; the capacity is the least that is asked for and needed; ml is reset only if the capacity changes |
| `TableCores.RehashLeast` | external/boost_concurrent.hpp:9573-9580 | the capacity chosen is the least permissible one with n slots and room for the elements at 7/8; none exactly for an empty table and n = 0 |
| `TableCores.TableCore.Reserve` | external/boost_concurrent.hpp:9582-9585 | keeps the map; the capacity and ml it leaves; n elements fit below ml afterwards exactly if the capacity was not yet the one that rehash chooses, or ml was at least n |
| `ReserveShortfall.ReserveFallsShort` | external/boost_concurrent.hpp:9573-9585 | a table, reached by insertions and erasures, whose maximum load is below n after reserve(n) |
| `TableCores.TableCore.Clear` | external/boost_concurrent.hpp:9535-9553 | empties the map, keeps the capacity, restores ml and the overflow bytes |
| `TableAlgebra.Equal` | external/boost_concurrent.hpp:9619-9629 | equal sizes and one-way lookup decide equality of the maps, both ways |
| `TableAlgebra.Merge` | external/boost_concurrent.hpp:11374-11391 | the target becomes the union, its own values winning; the source keeps exactly the colliding keys; the result counts the transferred ones; also when both are the same table |
| `TableAlgebra.AgreesAll` | external/boost_concurrent.hpp:9619-9629 | if all elements of one table are in a map of the same size, the two are the same map |
| `TableVisits.Visit` | external/boost_concurrent.hpp:11677-11716 | visits the element of the key exactly if it is present, once, and counts it |
| `TableVisits.BulkVisitChunk` | external/boost_concurrent.hpp:11718-11793 | the three-pass visitation of up to 31 keys, buffers filled in reverse, is visiting the keys one by one in order |
| `TableVisits.BulkVisit` | external/boost_concurrent.hpp:11591-11609 | for any list of keys, with repetitions, chunks fit the buffers and the result is that of single visits in order, with the same count |
| `TableVisits.VisitsAppend` | external/boost_concurrent.hpp:11591-11609 | visiting a list of keys is visiting its parts one after the other |
| `TableVisits.VisitsCount` | external/boost_concurrent.hpp:11591-11609 | the visitor is called once for every listed key that is present, and no key comes or goes |
| `ConcurrentTheorems.StepInv` | external/boost_concurrent.hpp:12057-12107 | every step of every thread (lookup, insertion, erasure, entering, leaving, rehash) keeps the whole invariant |
| `ConcurrentTheorems.NextInv` | external/boost_concurrent.hpp:11337-11391 | so does starting a call, and any operation under exclusive access that leaves a consistent table, such as clear, merge or swap |
| `ConcurrentTheorems.NoDuplicates` | external/boost_concurrent.hpp:12057-12099 | in every state of every run, a key is logically present in at most one slot |
| `ConcurrentTheorems.SizeAccounts` | external/boost_concurrent.hpp:12016-12035 | in every state, size is live elements plus reservations plus erasures in progress, covers all occupied slots, and ml lies between 0 and the initial maximum load |
| `ConcurrentTheorems.AdmittedFindsRoom` | external/boost_concurrent.hpp:12072-12096 | a thread whose reservation succeeded still has a free slot to find |
| `ConcurrentTheorems.ExclusiveWithinLoad` | external/boost_concurrent.hpp:12101-12107 | whenever exclusive container access is held or obtainable, the table is valid, size is the number of keys, and size is at most ml |
| `ConcurrentTheorems.RehashMakesRoom` | external/boost_concurrent.hpp:12101-12107 | testing for equality suffices: afterwards size is below ml and the map is the same |
| `ConcurrentTheorems.LockHolderSeesElements` | external/boost_concurrent.hpp:12077-12094 | a thread holding a group lock sees a slot occupied exactly if it holds a constructed element, its own slot excepted |
| `ConcurrentTheorems.ReservationsHidden` | external/boost_concurrent.hpp:12037-12055 | a slot being reserved or emptied is never visible to another thread holding the group's lock |
| `ConcurrentLookup.LookupNeverMisses` | external/boost_concurrent.hpp:11677-11716 | a slot present and still ahead of a lookup stays ahead until it is found, though metadata is read without locks |
| `ConcurrentVisit.MissJustified` | external/boost_concurrent.hpp:11677-11716 | in every run, a lookup that ends without finding its key overlapped a moment at which the key was absent: a key present throughout is found |
| `ConcurrentVisit.StaysAhead` | external/boost_concurrent.hpp:11677-11716 | while the key stays present, the slot holding it stays ahead of the lookup, whatever other threads do |
| `ConcurrentRefinement.AtomicStep` | external/boost_concurrent.hpp:12057-12099 | every step changes the abstract map by one insertion, one removal, one store, or not at all; an insertion takes effect at the counter increment |
| `ConcurrentRefinement.BindsOnce` | external/boost_concurrent.hpp:12057-12099 | in every state the abstract map binds a key to at most one value |
| `ConcurrentRefinement.LedgerBalances` | external/boost_concurrent.hpp:12057-12099 | over any stretch of any run without exchange of the contents under exclusive access, and for every key, insertions minus erasures that took effect is the change of its presence |
| `ConcurrentRefinement.LoadStep` | external/boost_concurrent.hpp:10009-10018 | ml changes in erasures only, and exactly in those from a group overflowed for the hash of the erased key; a rehash restores it |
| `ConcurrentRefinement.LoadLedger` | external/boost_concurrent.hpp:10009-10018 | over any stretch of any run without a rehash, ml falls by the number of those erasures |
| `ConcurrentCalls.ActTakesEffect` | external/boost_concurrent.hpp:12057-12099 | the act of a step takes effect at once: an insertion finds its key absent and adds it, an erasure, store or read finds it bound to the value it reports; steps without an act leave the map alone |
| `ConcurrentCalls.CallTakesEffect` | external/boost_concurrent.hpp:11286-11303 | every completed call has, between start and return, exactly the one act that its result says (visitors applied to the value found, erasures under their condition), or returns 0 having come past a moment at which its key was absent |
| `ConcurrentCalls.EraseMisses` | external/boost_concurrent.hpp:11280-11303 | an unconditional erasure returns 0 only if its key was absent at some moment of the call |
| `ConcurrentProgress.SoloStep` | external/boost_concurrent.hpp:12057-12107 | every step of a thread that is alone in the container brings it nearer to its return, through rehashing if need be |
| `ConcurrentProgress.SoloGoes` | external/boost_concurrent.hpp:12057-12107 | such a thread is never blocked |
| `ConcurrentProgress.SoloCall` | external/boost_concurrent.hpp:11976-11985 | a call that starts while nobody is inside, and that nobody disturbs, returns within a bound given by the size of the table, with the result that the contents call for: insertions insert exactly absent keys, visits and erasures find exactly present ones |
| `ConcurrentProgress.ReadersShare` | external/boost_concurrent.hpp:11686-11691 | a read-only visitor is let into a group that no writer holds, beside any number of other readers |
| `ConcurrentProgress.LookupStops` | external/boost_concurrent.hpp:11706-11712 | a lookup goes on to another group exactly past a group that is overflowed for its hash |
| `RwSpinlock.WordBits` | external/boost_concurrent.hpp:7418-7424 | what the three masks select, and what ORing in the pending bit gives, for every word the lock can hold |
| `RwSpinlock.NextKept` | external/boost_concurrent.hpp:7471-7568 | every load, compare-exchange, store and subtraction keeps the lock's invariant, with spurious failures and stale loads |
| `RwSpinlock.MutualExclusion` | external/boost_concurrent.hpp:7471-7568 | for any number of threads, a writer never holds the lock together with another writer or a reader |
| `RwSpinlock.WordExact` | external/boost_concurrent.hpp:7471-7568 | the word is 2^31 exactly while a writer holds the lock, so storing 0 loses nothing; otherwise it is the number of readers plus possibly the pending bit, without carry |
| `RwSpinlock.PendingHasWaiter` | external/boost_concurrent.hpp:7531-7562 | a set pending bit means that some thread is inside `lock()` |
| `RwSpinlock.PendingStep` | external/boost_concurrent.hpp:7485-7562 | while the bit is set, a step either lets a writer in or keeps the bit and admits no reader |
| `RwSpinlock.PendingDrains` | external/boost_concurrent.hpp:7485-7562 | over any stretch without a writer, the readers only become fewer once the bit is set |
| `RwSpinlock.PendingRaised` | external/boost_concurrent.hpp:7548-7558 | a thread in `lock()` that finds readers and no pending bit sets it, unless its compare-exchange fails |
| `RwSpinlock.PendingHandsOver` | external/boost_concurrent.hpp:7531-7562 | once the last reader has left, a thread in `lock()` gets the lock in two steps, and no reader is admitted before |
| `RwSpinlock.TryLockAnswers` | external/boost_concurrent.hpp:7511-7529 | `try_lock()` fails exactly if somebody holds the lock, and otherwise has it in its next step if undisturbed |
| `RwSpinlock.TrySharedAnswers` | external/boost_concurrent.hpp:7471-7483 | `try_lock_shared()` fails exactly if a writer holds or waits or the count is full, and otherwise has the lock in its next step if undisturbed |
| `RwSpinlock.RefinesLock` | external/boost_concurrent.hpp:7471-7568 | every step is invisible, an acquisition of the free abstract lock, or a release |
| `RwSpinlock.LockObtainable` | external/boost_concurrent.hpp:7531-7562 | an undisturbed thread in `lock()` gets a lock nobody holds in two steps, pending bit or not |
| `RwSpinlock.SharedObtainable` | external/boost_concurrent.hpp:7485-7499 | so does a thread in `lock_shared()` when no writer holds or waits and the count is not full |
| `ContainerLocks.BilockOrdered` | external/boost_concurrent.hpp:10542-10559 | two containers are locked in strictly increasing (address, index) order, every mutex of both exactly once, also when they are the same |
| `ContainerLocks.TakesAll` | external/boost_concurrent.hpp:10546-10559 | no mutex is given back before all have been taken |
| `ContainerLocks.ExclusiveShutsOut` | external/boost_concurrent.hpp:10483-10500 | a thread holding all mutexes of a container shuts out every other accessor, shared or exclusive |
| `ContainerLocks.DeadlockFree` | external/boost_concurrent.hpp:11502-11526 | among any threads using any containers and group locks, at least one can take its next step, even if waiting writers hold back readers |
| `Mulx.AccumulateExact` | external/boost_concurrent.hpp:6502-6525 | the two accumulated words are the halves of the exact 128-bit product, and no product or sum on the way overflows |
| `Mulx.Mulx64Exact` | external/boost_concurrent.hpp:6494-6528 | portable `mulx64` is the XOR of the low and high halves of the product, for all inputs |
| `ByteWords.LongTailIs` | external/boost_concurrent.hpp:13377-13380 | two overlapping four-byte reads see each of four to seven bytes in its place |
| `ByteWords.ShortTailIs` | external/boost_concurrent.hpp:13381-13390 | the three reads for one to three bytes see each byte in its place |
| `ByteWords.ReadForward` | external/boost_concurrent.hpp:13418-13487 | reading byte by byte with a check for the end before each gives the same word |
| `HashRange64.RandomAccess` | external/boost_concurrent.hpp:13346-13397 | for every seed, byte sequence and mixer, equals the common specification (length mixed in first) |
| `HashRange64.Forward` | external/boost_concurrent.hpp:13399-13503 | for every seed, byte sequence and mixer, equals the common specification (length mixed in last) |
| `HashRange64.SumWraps` | external/boost_concurrent.hpp:13360-13368 | the sums are those of 64-bit words |
| `HashRange64.WordsDiffer` | external/boost_concurrent.hpp:13363-13371 | no two of up to 2^64 blocks are mixed in with the same word |
| `HashRange64.OneBlockMatters` | external/boost_concurrent.hpp:13346-13397 | inputs of equal length that differ in one block, the tail included, are told apart before the final mixing, by any mixer that tells words apart |
| `HashRange64.OneBlockHashes` | external/boost_concurrent.hpp:13346-13397 | if that mixer yields words, their hashes differ |
| `HashRange32.RandomAccess` | external/boost_concurrent.hpp:13190-13242 | the same for 32-bit words |
| `HashRange32.Forward` | external/boost_concurrent.hpp:13244-13315 | the same for 32-bit words |
| `HashRange32.Halves` | external/boost_concurrent.hpp:13239-13241 | the two halves make up the accumulator |
| `HashRange32.WordsDiffer` | external/boost_concurrent.hpp:13209-13218 | no two of up to 2^32 blocks are mixed in with the same word |
| `HashRange32.OneBlockMatters` | external/boost_concurrent.hpp:13190-13242 | inputs of equal length that differ in one block are told apart before the final mixing, by the real product in particular |
| `ThreadPool.NextKept` | external/BS_thread_pool.hpp:1995-2044 | every step of workers, users, `wait` and `reset` keeps the pool's invariant |
| `ThreadPool.RunningCounts` | external/BS_thread_pool.hpp:1995-2044 | in every run, `tasks_running` is the number of workers initialising or to be created, plus those between popping a task and locking again |
| `ThreadPool.Conservation` | external/BS_thread_pool.hpp:1416-1427 | every task ever detached is in exactly one place: queued, being run, finished or purged |
| `ThreadPool.FirstInFirstOut` | external/BS_thread_pool.hpp:1963-1972 | in every state, the tasks started so far have been started in the order of detachment, none twice |
| `ThreadPool.RunByOne` | external/BS_thread_pool.hpp:2024-2033 | a task being run is run by one worker only, has been started and has not finished |
| `ThreadPool.WorkerTakesNext` | external/BS_thread_pool.hpp:2014-2027 | a worker that is awake and gets the mutex while tasks may be run takes the first of them |
| `ThreadPool.UnpauseResumes` | external/BS_thread_pool.hpp:1773-1780 | after unpause() and its notification, tasks may be run and no worker is asleep |
| `ThreadPool.WaitComplete` | external/BS_thread_pool.hpp:1787-1807 | when `wait()` returns no task is being run; unless paused, every task detached before has finished or been purged |
| `ThreadPool.QueueKept` | external/BS_thread_pool.hpp:1416-1427 | a task in the queue is, whatever happens later, still queued, started or purged, and stays ahead of the tasks behind it |
| `ThreadPool.ResetKeepsQueue` | external/BS_thread_pool.hpp:1567-1583 | a pausable pool starts no task from the call of reset() to its return: the queue found is handed on, new tasks behind it, unless unpause() or purge() interferes |
| `ThreadPool.JoinProceeds` | external/BS_thread_pool.hpp:1931-1940 | while `reset()` joins, every worker has exited or can take its next step: none is left asleep |
| `ThreadPool.ResetStaffs` | external/BS_thread_pool.hpp:1900-1924 | a reset leaves exactly as many workers as it was asked for |
| `PoolWakeups.NothingLost` | external/BS_thread_pool.hpp:1995-2044 | no step loses a wakeup, except a `reset()` lifting its own pause |
| `PoolWakeups.NoLostWakeup` | external/BS_thread_pool.hpp:1416-1427 | for every run: if the queue is nonempty and unpaused outside reset, some worker is not asleep or somebody is about to notify, in every state, if and only if each lifting of a pause in it is harmless |
| `PoolWakeups.ResetWhilePaused` | external/BS_thread_pool.hpp:1567-1583 | in runs in which reset() is called only while the pool is paused, or pausing is not enabled, no wakeup is ever lost |
| `PoolWakeups.ResetStrandsExactly` | external/BS_thread_pool.hpp:1567-1583 | from any reachable state, for any number of threads: some reset() called now strands the queue if and only if the pool can be paused and is not |
| `PoolWakeups.ResetStrandsTask` | external/BS_thread_pool.hpp:1561-1583 | a run in which a task detached before reset() is called is left queued with nobody to run it |
| `PoolWakeups.WaiterAlwaysTold` | external/BS_thread_pool.hpp:2006-2018 | any step but `pause` and `purge` that makes the predicate of a blocked `wait()` true also wakes it |
| `PoolWakeups.BlockedWaiterTold` | external/BS_thread_pool.hpp:2006-2018 | for every run: no blocked `wait()` is ever overlooked if and only if no `pause` or `purge` hits it while no worker is busy |
| `PoolWakeups.PauseOrPurgeTells` | external/BS_thread_pool.hpp:1516-1529 | `pause` and `purge` leave a blocked `wait()` overlooked exactly if no worker is busy |
| `PoolWakeups.PurgeStrandsWaiter` | external/BS_thread_pool.hpp:1525-1529 | a run in which `purge` leaves `wait()` blocked with nothing to wait for |
| `PoolWakeups.PauseStrandsWaiter` | external/BS_thread_pool.hpp:1516-1520 | a run in which `pause` does, with tasks still queued |
| `Blocks.Partition.constructor` | external/BS_thread_pool.hpp:463-481 | the range is divided into as many blocks as wanted, at most one per index, none for an empty range |
| `Blocks.Contiguous` | external/BS_thread_pool.hpp:489-516 | blocks adjoin, from the first index of the range to its end |
| `Blocks.Balanced` | external/BS_thread_pool.hpp:489-516 | no block is empty, and sizes differ by at most one, the larger ones first |
| `Blocks.CoveredOnce` | external/BS_thread_pool.hpp:452-540 | every index of the range is in exactly one block, and no other index is in any |
| `Blocks.StartInType` | external/BS_thread_pool.hpp:510-513 | in an index type of any width and signedness that holds both ends of the range, the start of each block comes out as on exact integers, in spite of wrap-around; nothing wraps if the type holds the length, too |
| `Blocks.DetachLoop` | external/BS_thread_pool.hpp:1360-1378 | the tasks put into the queue call the loop body exactly once for each index, in order; there are exactly as many as wanted or as there are indices, of lengths that differ by at most one |

## Left out

- TableCores.TableCore.Emplace: requires that a table of the next size can be allocated (at most 2^63 groups), because
  running out of memory is not modelled; the same holds for `Merge`, `Rehash` and `Reserve`.
- TableStorage.TableArrays.Find: the SIMD and prefetching side of lookup is left out; a match is its byte-wise meaning.
- ConcurrentTheorems.StepInv: `erase_if` over all elements and whole-table visitation, which lock one group at a time
  under shared access, are not steps of the concurrent machine.
- ConcurrentTheorems.NoDuplicates: the 32-bit wrap-around of insertion counters is not modelled; counters are unbounded.
- ConcurrentVisit.MissJustified: the visitor run on a newly inserted element is taken to be part of its construction.
- ContainerLocks.DeadlockFree: says that some thread can always move, not that every thread eventually does; the
  spinlock gives no such guarantee. Back-off between attempts is left out.
- RwSpinlock.RefinesLock: memory orderings weaker than sequential consistency are not modelled.
- HashRange64.RandomAccess: the length is an exact number, which a byte range that fits in memory always has as a
  64-bit word; iterators are positions in a sequence.
- PoolWakeups.BlockedWaiterTold: several simultaneous waiters are excluded, since one `waiting` flag does not serve them.
- ThreadPool.FirstInFirstOut: the priority queue used when priorities are enabled is left out.
- Timed waits, futures, native thread handles, `synced_stream`, exceptions thrown by tasks, and the C++20 variant with
  stop tokens in place of `workers_running`.
- Copying, moving and swapping tables, iterators, allocators, exceptions, statistics, serialization, reentrancy checks
  and the parallel algorithms of the table.
- Rounding in the float computations of load factors: they are done exactly.
- Blocks.Partition.constructor: a range longer than its signed index type can say, whose length C++ leaves undefined.
- The server's own headers, configuration loader and scripts: declarations and glue.
