# Verification of godby's concurrent and time-indexed data structures

godby is a C++ library of lock-free and time-indexed data structures. This project models its cores in Dafny and
proves what they are for.

Concurrent cores are step relations: shared state, a program counter and locals for every thread, any number of
threads, one shared access per step, and theorems about the last state of every run. Sequential cores are classes
with loops that change arrays and fields in place, each method proved against a function of the old state, with the
promises of the structure proved as lemmas about that function. For the concurrent cores it is also proved
that calls come to an end: each access of a call ends it or brings it nearer to its end, but for what the lemma names,
and `WaitAll` can always return.

| file | core |
|---|---|
| StickyCounter.dfy, StickyLoads.dfy | the wait-free counter that cannot come back from zero, and when its loads are exact |
| SharedPtr.dfy, AtomicCells.dfy | atomic shared and weak pointers, hazard pointers, bulk and incremental reclamation; what the operations do to cells and handles |
| RetiredList.dfy | the intrusive list of retired objects |
| StealingQueue.dfy | the growable work-stealing deque |
| StealingExecutor.dfy | the counters that make `WaitAll` a barrier |
| RobinHoodIndex.dfy, RobinHoodTable.dfy | the robin-hood hash table: its bucket index, and the table changed in place |
| TimerWheelModel.dfy, TimerWheel.dfy, TimerWakeup.dfy | the hierarchical timing wheel as a value, as linked slots, and how long it can sleep |
| AtomicQueue.dfy, AtomicQueueOrder.dfy | the bounded queue of many producers and consumers, and its order |
| PoolAllocator.dfy | the tagged lock-free free list |
| NumberTheory.dfy, Primality.dfy | primality by trial division and the Rabin-Miller test |
| AtomicHashmap.dfy | the multi-level hash map with hidden stale copies |
| ZOrder.dfy | the order of signal connections |
| Arith.dfy, Bits.dfy | arithmetic with symbolic divisors, powers of two, exclusive or |

`dafny verify dfyconfig.toml` checks the project.

## What the proofs say about the code

Where a property turned out false of the code, the code is modelled as it is, a concrete case is given, and it is proved
when the property does hold.

- `WaitFreeCounter::load` is not an exact linearizable read. A thread that has subtracted the last unit may stall
  before its second access; another thread can increment, load 1 and decrement again, and the first thread still
  returns true (`StickyCounter.UnluckyIsNotExact`). Whether the counter is zero is linearizable in every run
  (`StickyCounter.Linearizable`). The exact value is linearizable if and only if no nonzero load reads while the
  decrement that goes on to win is between its two accesses (`StickyLoads.ExactIff`). A load made now can be trusted,
  whatever follows, if and only if there is no such decrement that could still win but one that an earlier load has met
  already (`StickyLoads.SafeIff`, `StickyLoads.StalledCanWin`). Both are for loads that read a nonzero count at once. A load that read 0 first and a nonzero count at its second access has more room: the
  condition is sufficient for it (`StickyCounter.ExactUnlessMissed`), not necessary (`StickyLoads.SlowCanBeLucky`).
- `ticks_to_wakeup` can answer too long a sleep in two ways. It looks one level up when a level is carried, so an event
  further up is missed when two levels are carried at once (`TimerWakeup.DoubleCarryMissed`). And what it has seen one
  level up is forgotten when its own level is empty and `max` does not reach the next
  (`TimerWakeup.SeenButForgotten`). `TimerWakeup.WakeExact` says for which wheels and `max` the answer is right.
- The comments at `IsPrime` and `NextPrime` promise n below 4,759,123,141. From 2 to the 32 on the witnesses are
  computed for the low word only: 2 to the 32 plus 79 is composite and accepted, 2 to the 32 plus 15 is prime and
  rejected (`Primality.CompositeAccepted`, `Primality.PrimeRejected`, `Primality.AcceptsPrimeWord`), and where the low
  word is 1 the computation does not halt (`Primality.HalvesForEver`).
- The move constructor of `RetiredList`, which nothing in the library calls, does not take the tail
  (`RetiredList.RetiredList.MovedFrom`).
- `AtomicHashmap::Set` without memory for the value hides an older value of the key (`AtomicHashmap.NoMemoryLoses`,
  `AtomicHashmap.LostInHole`).
- Ticket words of `AtomicQueue2` wrap without harm if and only if the size divides 2 to the 32; for other sizes two
  tickets less than a lap apart are for one slot (`AtomicQueue.WrapKeepsApart`, `AtomicQueue.ThreeCollide`).
- `AtomicQueue2` is first in, first out as long as no slot has two producers or two consumers with a ticket; when a
  producer stalls between its ticket and its slot, an item pushed later can be returned earlier
  (`AtomicQueueOrder.FirstInFirstOut`, `AtomicQueueOrder.OrderBroken`).
- The first loop of `WaitAll` is no barrier by itself; the count of waiting consumers makes it one
  (`StealingExecutor.FirstLoopIsNotEnough`, `StealingExecutor.Barrier`).

## Assumptions

- Memory is sequentially consistent; fences and weak orders are not modelled.
- Tickets, tags, deque indices and reference counts are unbounded integers, except where a member speaks of words.
- In SharedPtr.dfy the reference counter is atomic, one step per call, as StickyCounter.dfy justifies for zero and
  nonzero; a thread is its hazard slot.
- A run of StealingExecutor.dfy uses the deque as an atomic one, as StealingQueue.dfy justifies, with steals that may
  fail.
- Hash functions, callbacks of timers, item values and the spurious failures of weak exchanges are arbitrary.
- In TimerWheel.dfy the callbacks are a function of what happened so far; they schedule and cancel events but do not
  advance the wheel.
- The maximum load factor of the hash table is a function from bucket counts to capacities that stays below the count.

## Model

| member | source | states |
|---|---|---|
| StickyCounter.Linearizable | godby/include/godby/AtomicSharedPointer.h:71-99 | every history of load, increment and decrement, in any interleaving, is explained by one atomic sticky counter whose loads tell zero from nonzero |
| StickyCounter.ZeroIsSticky | godby/include/godby/AtomicSharedPointer.h:71-99 | an operation called after a load returned 0, an increment failed or a decrement returned true is told zero as well |
| StickyCounter.AtMostOneWinner | godby/include/godby/AtomicSharedPointer.h:90-99 | at most one decrement in the life of the counter returns true |
| StickyCounter.SomeWinner | godby/include/godby/AtomicSharedPointer.h:90-99 | when all units have been given back and all calls have returned, a decrement returned true |
| StickyCounter.StepKeeps | godby/include/godby/AtomicSharedPointer.h:71-99 | every single access keeps the invariant that ties the word, with its two flags, to the atomic counter |
| StickyCounter.RunInv | godby/include/godby/AtomicSharedPointer.h:71-99 | the invariant holds at the end of every run |
| StickyCounter.InvLinearizes | godby/include/godby/AtomicSharedPointer.h:71-99 | the invariant yields a sequential order that keeps real time and explains every answer |
| StickyCounter.ClaimZero | godby/include/godby/AtomicSharedPointer.h:92-95 | when a decrement sets the zero flag or claims the one a load set for it, and answers true, the explanation goes on with it as the last of the decrements to zero |
| StickyCounter.ZeroByLoad | godby/include/godby/AtomicSharedPointer.h:73-75 | when a load finds 0, sets both flags and answers 0, the explanation goes on with the pending decrements before it |
| StickyCounter.PlaceStale | godby/include/godby/AtomicSharedPointer.h:92-98 | when a decrement that had reached zero finds the counter raised and answers false, the explanation goes on with it as an ordinary decrement |
| StickyCounter.FinishFalse | godby/include/godby/AtomicSharedPointer.h:94-98 | when a decrement finds zero claimed by another and answers false, the explanation goes on unchanged |
| StickyCounter.StickyInHistory | godby/include/godby/AtomicSharedPointer.h:71-99 | in any legal sequential explanation, what is called after a zero answer sees zero |
| StickyCounter.OneWinnerInHistory | godby/include/godby/AtomicSharedPointer.h:71-99 | no legal sequential explanation has two decrements that return true |
| StickyCounter.UnluckyRun | godby/include/godby/AtomicSharedPointer.h:71-99 | a concrete run of two threads whose second thread loads 1 although the first decrement has already taken the count to zero and later returns true |
| StickyCounter.UnluckyIsNotExact | godby/include/godby/AtomicSharedPointer.h:71-99 | no atomic counter with exact loads explains that run, so exact loads are not linearizable in general |
| StickyCounter.ExactUnlessMissed | godby/include/godby/AtomicSharedPointer.h:71-99 | a run is explained by an atomic counter whose loads show the exact count unless some nonzero load reads while the decrement that goes on to win is between its accesses |
| StickyCounter.Settle | godby/include/godby/AtomicSharedPointer.h:92-98 | while the count is not zero, decrements that owe their second access can be placed at once, with the answer false |
| StickyCounter.FinishSettled | godby/include/godby/AtomicSharedPointer.h:92-98 | a decrement that has its place already answers false, and the explanation goes on unchanged |
| StickyCounter.WaitFree | godby/include/godby/AtomicSharedPointer.h:71-99 | an open call ends with the next access of its thread or has one fewer left, a load at most one and a decrement at most two, and no other thread delays it |
| StickyCounter.CanStep | godby/include/godby/AtomicSharedPointer.h:71-99 | every open call has a thread, and that thread can make its next access |
| StickyLoads.ExactIff | godby/include/godby/AtomicSharedPointer.h:71-99 | a run whose nonzero loads read the count at their first access is explained by a counter with exact loads if and only if none of these loads reads while the decrement that wins is between its accesses |
| StickyLoads.BesideWinner | godby/include/godby/AtomicSharedPointer.h:71-99 | if one of them does, no order of the calls explains the history with exact loads, whatever else happens in the run |
| StickyLoads.StalledCanWin | godby/include/godby/AtomicSharedPointer.h:71-99 | from every reachable live count with a decrement between its accesses, a load, a decrement of all that is left, and the second access of the first make a history that no counter with exact loads explains |
| StickyLoads.SafeIff | godby/include/godby/AtomicSharedPointer.h:71-99 | at a live count, a load made now is exact whatever harmless things come after it, if and only if every decrement that is between its accesses has been met by an earlier load already; so whenever there is none |
| StickyLoads.ExactWhenCalm | godby/include/godby/AtomicSharedPointer.h:71-99 | runs in which no nonzero load meets any unfinished decrement are exact, loads with two accesses among them |
| StickyLoads.SlowCanBeLucky | godby/include/godby/AtomicSharedPointer.h:72-76 | a concrete run in which a load with two accesses shows the count beside the winner and is exact all the same |
| StickyLoads.PendingEarlier | godby/include/godby/AtomicSharedPointer.h:71-99 | in any exact explanation, each decrement called before a load that reads the word at once stands before that load: without it more would be left than was read |
| StickyLoads.RunBooks | godby/include/godby/AtomicSharedPointer.h:71-99 | in every run a live word is what it began with and what all calls have added, the unfinished ones included |
| StickyLoads.CountIsSum | godby/include/godby/AtomicSharedPointer.h:71-99 | an explaining counter that is not at zero has what its operations have added |
| SharedPtr.MemorySafe | godby/include/godby/AtomicSharedPointer.h:1140-1194 | in every run no thread is about to touch a block that has been destroyed, no object with a strong owner has been disposed, no block with any owner has been destroyed, and the strong count is the number of strong owners |
| SharedPtr.DestroysOnlyDead | godby/include/godby/HazardPointers.h:126-166 | a block that any step destroys, in bulk or incremental reclamation, is disposed, has no owner and no validated hazard of any thread, and was in exactly one place, which it leaves |
| SharedPtr.DeadBlocksWaitOnce | godby/include/godby/HazardPointers.h:323-334 | a block whose weak count is zero waits in exactly one retired list, once, until it is destroyed |
| SharedPtr.RetiredBounded | godby/include/godby/HazardPointers.h:323-334 | in bulk mode a slot never holds more retired blocks than the slots it last scanned plus 2000 |
| SharedPtr.ValidateKeeps | godby/include/godby/HazardPointers.h:283-305 | validating a published hazard keeps the invariant: every reclaimer that has the block has seen the hazard or will yet see it |
| SharedPtr.HeldIsNotDead | godby/include/godby/AtomicSharedPointer.h:1154-1166 | a block that some strong owner or cell holds is not dead and in no retired list |
| SharedPtr.NoUnits | godby/include/godby/AtomicSharedPointer.h:194-220 | a block whose weak count is zero has no owner of any kind and a strong count of zero |
| SharedPtr.IncrementKeeps | godby/include/godby/AtomicSharedPointer.h:1146-1149 | the increment after a validated load keeps the invariant, whether it succeeds or not |
| SharedPtr.LockKeeps | godby/include/godby/AtomicSharedPointer.h:1048-1052 | locking a weak pointer keeps the invariant, whether the object is alive or not |
| SharedPtr.DisposeKeeps | godby/include/godby/AtomicSharedPointer.h:194-207 | disposal by the last strong owner keeps the invariant |
| SharedPtr.StoreKeeps | godby/include/godby/AtomicSharedPointer.h:1154-1159 | a store keeps the invariant |
| SharedPtr.ExchangeKeeps | godby/include/godby/AtomicSharedPointer.h:1161-1166 | an exchange keeps the invariant |
| SharedPtr.CasKeeps | godby/include/godby/AtomicSharedPointer.h:1168-1181 | a compare-exchange keeps the invariant, whether it succeeds, fails or fails spuriously |
| SharedPtr.SweepUnprotected | godby/include/godby/HazardPointers.h:126-149 | a block that the bulk sweep destroys has no validated hazard |
| SharedPtr.WorkSlot | godby/include/godby/HazardPointers.h:345-369 | the start of an incremental round moves the lists on without losing a block, and whatever covers a validated hazard still covers it |
| SharedPtr.EjectUnprotected | godby/include/godby/HazardPointers.h:155-166 | a block that an incremental round ejects has no validated hazard |
| SharedPtr.PeekKeeps | godby/include/godby/HazardPointers.h:374-375 | reading the hazard of the slot at hand keeps the invariant |
| SharedPtr.PeekNextKeeps | godby/include/godby/HazardPointers.h:376-376 | going on to the next slot, or ending the round, keeps the invariant, although hazards have changed since the slot was read |
| SharedPtr.AppendKeeps | godby/include/godby/HazardPointers.h:345-377 | appending a slot keeps the invariant, also during a scan |
| SharedPtr.EnableKeeps | godby/include/godby/HazardPointers.h:336-342 | switching to incremental reclamation, whatever the threads are doing, keeps the invariant |
| SharedPtr.StepKeeps | godby/include/godby/AtomicSharedPointer.h:1140-1194 | every step of loads, stores, exchanges, weak pointers and both reclaimers keeps the invariant |
| SharedPtr.RunInv | godby/include/godby/AtomicSharedPointer.h:1140-1194 | the invariant holds at the end of every run |
| AtomicCells.AtomicRegisters | godby/include/godby/AtomicSharedPointer.h:1154-1181 | in every run the cells are atomic registers: a store or exchange leaves the given pointer in the cell and takes the old one out, a compare-exchange does so exactly when the cell holds the expected pointer and the failure is not spurious, and nothing else changes a cell or another handle |
| AtomicCells.StepRegisters | godby/include/godby/AtomicSharedPointer.h:1140-1194 | the same for one step, with what copying, dropping, weak pointers and locking do to handles: a lock gives the pointer exactly while somebody owns the object |
| AtomicCells.CasDecides | godby/include/godby/AtomicSharedPointer.h:1168-1181 | a compare-exchange writes exactly when the cell holds the expected pointer and the failure is not spurious, and otherwise goes on to load the cell |
| AtomicCells.LoadHeld | godby/include/godby/AtomicSharedPointer.h:1140-1152 | a load returns a pointer that its cell held at some time during the call, or null if it held none |
| AtomicCells.NothingLeaks | godby/include/godby/AtomicSharedPointer.h:194-207 | an object that nobody owns has been disposed of, unless exactly one thread is about to do it |
| AtomicCells.OwnStep | godby/include/godby/AtomicSharedPointer.h:1140-1194 | every access of a load, of a drop or of either reclaimer brings the call nearer to its end; a cell that has changed costs a load another round |
| AtomicCells.CanStep | godby/include/godby/AtomicSharedPointer.h:1140-1194 | a thread inside a call always has an access to make |
| RetiredList.RetiredList.Push | godby/include/godby/HazardPointers.h:98-102 | pushing puts the object before all others and keeps the list linked from head to tail |
| RetiredList.RetiredList.Append | godby/include/godby/HazardPointers.h:104-114 | appending joins the two lists and leaves the other one empty |
| RetiredList.RetiredList.TakeHead | godby/include/godby/HazardPointers.h:159-160 | taking the head leaves the rest linked |
| RetiredList.RetiredList.Cleanup | godby/include/godby/HazardPointers.h:126-149 | cleanup destroys exactly the unprotected objects, once and in order, keeps the protected ones in order, and leaves the tail at the last |
| RetiredList.RetiredList.Sweep | godby/include/godby/HazardPointers.h:134-146 | the same for the part of the loop behind a protected head |
| RetiredList.RetiredList.EjectAndMove | godby/include/godby/HazardPointers.h:155-166 | at most n objects leave from the front; the protected ones are pushed onto the other list, the others destroyed once |
| RetiredList.RetiredList.MovedFrom | godby/include/godby/HazardPointers.h:91-91 | the move constructor leaves a list that is sound if and only if it is empty: it does not take the tail |
| RetiredList.SweepDrop | godby/include/godby/HazardPointers.h:138-142 | linking past an unprotected object keeps the chain of kept and unseen objects |
| RetiredList.SweepKeep | godby/include/godby/HazardPointers.h:143-145 | a protected object is kept without a write |
| RetiredList.KeptDistinct | godby/include/godby/HazardPointers.h:126-149 | no object is kept, moved or destroyed twice |
| RetiredList.OrderKept | godby/include/godby/HazardPointers.h:126-166 | what is kept or destroyed is so in the order of the list, what is moved in the reverse order |
| StealingQueue.Linearizable | godby/include/godby/StealingQueue.h:128-199 | every run of one owner and any number of thieves is a run of an atomic deque: each push and pop of the owner takes effect in it exactly once, with the answer it gives; a thief returns the first item, or leaves when there is none, when the owner is racing for the only one, or when its item was taken since it read top |
| StealingQueue.NothingLostOrDoubled | godby/include/godby/StealingQueue.h:128-199 | at every point the items pushed are exactly the items returned, the items in the deque and the item a pop has claimed |
| StealingQueue.NeverStuck | godby/include/godby/StealingQueue.h:128-199 | in every reachable state the item that an access is about to take is in the atomic deque and the array it is about to read exists |
| StealingQueue.ResizeGet | godby/include/godby/StealingQueue.h:52-57 | a logical index that is copied holds the same item in the larger array |
| StealingQueue.SetGet | godby/include/godby/StealingQueue.h:52-57 | writing at one logical index does not disturb another less than a lap away |
| StealingQueue.StepSimulates | godby/include/godby/StealingQueue.h:128-199 | each step does nothing to the atomic deque or exactly one of its operations |
| StealingQueue.StepAnswers | godby/include/godby/StealingQueue.h:128-199 | a step adds to the items returned exactly the item of its steal, or the item of the pop that ends with it |
| StealingQueue.StepOwner | godby/include/godby/StealingQueue.h:128-176 | a push takes effect once with its item, a pop once with the item it returns, or as a pop of the empty deque if it returns nothing |
| StealingQueue.StepThief | godby/include/godby/StealingQueue.h:184-199 | a thief that leaves without an item has seen an empty deque, or one item for which the owner is racing, or has lost its item to another since it read top |
| StealingQueue.StealAloneTakes | godby/include/godby/StealingQueue.h:184-199 | a steal in which no other thread moves returns the first item if and only if there is one that the owner is not about to take |
| StealingQueue.WaitFree | godby/include/godby/StealingQueue.h:128-199 | a call of the owner and a steal end within four further accesses, whatever the others do |
| StealingQueue.OwnerCanStep | godby/include/godby/StealingQueue.h:128-176 | the owner, inside a call, always has an access to make |
| StealingQueue.StealRaceKeeps | godby/include/godby/StealingQueue.h:184-199 | a thief exchanging top, successfully or not, keeps the invariant |
| StealingQueue.PopRaceKeeps | godby/include/godby/StealingQueue.h:164-170 | the owner exchanging top for the last item, successfully or not, keeps the invariant |
| StealingQueue.StepKeeps | godby/include/godby/StealingQueue.h:128-199 | every step keeps the invariant |
| StealingQueue.RunInv | godby/include/godby/StealingQueue.h:128-199 | the invariant holds at the end of every run |
| StealingExecutor.Barrier | godby/include/godby/StealingExecutor.h:219-246 | when WaitAll returns, the queue is empty and a task was submitted if and only if it is finished, and none is finished twice |
| StealingExecutor.TaskOnce | godby/include/godby/StealingExecutor.h:428-459 | at any time a task is queued, with one consumer, or finished, and not two of these |
| StealingExecutor.FirstLoopIsNotEnough | godby/include/godby/StealingExecutor.h:234-236 | a concrete run in which the first loop of WaitAll ends while a consumer holds a stolen task it has not counted |
| StealingExecutor.AllWait | godby/include/godby/StealingExecutor.h:241-242 | if the waiting count is the number of consumers, every consumer is in the waiting part |
| StealingExecutor.StepCounts | godby/include/godby/StealingExecutor.h:428-489 | the two counters are the numbers of consumers in the counted parts |
| StealingExecutor.StepBars | godby/include/godby/StealingExecutor.h:234-242 | once the queue was seen empty it stays so, and when all wait nobody holds a task |
| StealingExecutor.StepPlaces | godby/include/godby/StealingExecutor.h:428-459 | every step keeps each task in exactly one place |
| StealingExecutor.QuestionsAnswered | godby/include/godby/StealingExecutor.h:234-242 | WaitAll passes its first question exactly if the queue is empty, the second exactly if no consumer is in the working part, and returns from the third exactly if all are in the waiting part |
| StealingExecutor.CanReturn | godby/include/godby/StealingExecutor.h:219-489 | whatever has happened since WaitAll was called, the run can go on so that it returns, if there is a consumer at all |
| StealingExecutor.RunInv | godby/include/godby/StealingExecutor.h:219-489 | the invariant holds at the end of every run |
| RobinHoodIndex.Chain | samples/contrib/unordered_dense.h:924-934 | behind a bucket at some distance the buckets back to its home are tall enough |
| RobinHoodIndex.NoGap | samples/contrib/unordered_dense.h:924-934 | between the home of a stored key and its bucket no bucket is shorter than the search word |
| RobinHoodIndex.NoWrap | samples/contrib/unordered_dense.h:936-943 | distances never wrap past an empty bucket |
| RobinHoodIndex.SomeEmpty | samples/contrib/unordered_dense.h:980-982 | with fewer values than buckets there is an empty bucket |
| RobinHoodIndex.StopIsRight | samples/contrib/unordered_dense.h:1153-1190 | a bucket shorter than the search word proves that the key is absent |
| RobinHoodIndex.WordDiffers | samples/contrib/unordered_dense.h:1153-1190 | a bucket whose word differs does not hold the key |
| RobinHoodIndex.ShiftUpOrdered | samples/contrib/unordered_dense.h:936-943 | shifting up keeps the ordering of consecutive words |
| RobinHoodIndex.ShiftUpPlaced | samples/contrib/unordered_dense.h:936-943 | after shifting up every bucket has the distance of its key |
| RobinHoodIndex.ShiftUpMatched | samples/contrib/unordered_dense.h:936-943 | after shifting up buckets and values are still in bijection |
| RobinHoodIndex.InsertKeeps | samples/contrib/unordered_dense.h:936-943 | inserting an absent key where its search stops keeps the whole index |
| RobinHoodIndex.ShiftDownOrdered | samples/contrib/unordered_dense.h:1049-1058 | shifting back keeps the ordering of consecutive words |
| RobinHoodIndex.ShiftDownPlaced | samples/contrib/unordered_dense.h:1049-1058 | after shifting back every bucket has the distance of its key |
| RobinHoodIndex.ShiftDownMatched | samples/contrib/unordered_dense.h:1049-1058 | after shifting back every value but the erased one has exactly its bucket |
| RobinHoodIndex.EraseKeeps | samples/contrib/unordered_dense.h:1047-1077 | backward shift and swap with the last value keep the whole index |
| RobinHoodIndex.WordsFit | samples/contrib/unordered_dense.h:885-891 | the word of a bucket or a probe fits 32 bits if and only if its distance is below 2 to the 24, so always below 2 to the 24 buckets |
| RobinHoodTable.Table.constructor | samples/contrib/unordered_dense.h:1003-1018 | an empty table stands for the empty map |
| RobinHoodTable.Table.Find | samples/contrib/unordered_dense.h:1153-1190 | a lookup returns the value of the map, or nothing if the key is absent |
| RobinHoodTable.Table.Seek | samples/contrib/unordered_dense.h:1129-1149 | the search of an emplace finds the key or the place where it belongs |
| RobinHoodTable.Table.TryEmplace | samples/contrib/unordered_dense.h:1110-1149 | the key is added if and only if it was absent, growing if needed; otherwise nothing changes |
| RobinHoodTable.Table.InsertOrAssign | samples/contrib/unordered_dense.h:1101-1107 | the map is updated at the key |
| RobinHoodTable.Table.Locate | samples/contrib/unordered_dense.h:1080-1095 | the search of an erase finds the bucket of the key if and only if the key is present |
| RobinHoodTable.Table.Erase | samples/contrib/unordered_dense.h:1047-1077 | erasing a bucket removes exactly the key of its value from the map |
| RobinHoodTable.Table.EraseKey | samples/contrib/unordered_dense.h:1080-1098 | exactly the key is removed, and 1 returned if and only if it was present |
| RobinHoodTable.Table.IncreaseSize | samples/contrib/unordered_dense.h:1032-1044 | doubling and refilling changes no value and restores the index |
| RobinHoodTable.Table.ClearAndFill | samples/contrib/unordered_dense.h:1020-1030 | filling an empty bucket array from the values builds a sound index |
| RobinHoodTable.Table.PlaceElement | samples/contrib/unordered_dense.h:1110-1126 | placing a new value puts it at the end and keeps the index, and the table grows exactly when its capacity is exceeded |
| RobinHoodTable.Table.MoveLast | samples/contrib/unordered_dense.h:1063-1077 | the last value fills the hole and its bucket is redirected |
| RobinHoodTable.PlaceAndShiftUp | samples/contrib/unordered_dense.h:936-943 | the exchange loop in place computes the shift up to the first empty bucket |
| RobinHoodTable.NextWhileLess | samples/contrib/unordered_dense.h:924-934 | the loop stops at the first bucket not taller than the search word, with everything before it taller |
| RobinHoodTable.CloseGap | samples/contrib/unordered_dense.h:1049-1058 | the backward shift in place computes the shift down to the first bucket that stays |
| RobinHoodTable.Redirect | samples/contrib/unordered_dense.h:1071-1075 | the search for the bucket of the last value ends at it and changes its value index only |
| RobinHoodTable.ModelRemoveSwap | samples/contrib/unordered_dense.h:1063-1077 | removing by swapping with the last value removes exactly one key |
| RobinHoodTable.ProbeStops | samples/contrib/unordered_dense.h:924-934 | where a probe stops there is a run of full buckets up to an empty one to shift |
| RobinHoodTable.ProbeMisses | samples/contrib/unordered_dense.h:1092-1094 | a probe that ends at a shorter bucket proves the key absent |
| RobinHoodTable.SearchOn | samples/contrib/unordered_dense.h:1162-1190 | one more probe keeps what is known, and the probe meets an empty bucket within one turn |
| TimerWheelModel.ExactlyOnce | godby/include/godby/TimerWheel.h:167-311 | when a tick is done, an event scheduled for tick t and then left alone has been executed exactly once, at clock t, if the clock has reached t, and not at all before |
| TimerWheelModel.CompleteScripted | godby/include/godby/TimerWheel.h:288-311 | an advance carries out the callback of everything it executes: each firing is followed in the history by what its callback schedules and cancels, action by action |
| TimerWheelModel.CallbackFires | godby/include/godby/TimerWheel.h:288-311 | what a callback schedules is executed exactly once, at the tick of the callback plus the delta, if it is left alone |
| TimerWheelModel.ExecuteScripted | godby/include/godby/TimerWheel.h:296-309 | executing an event adds to the history its firing and then each action of its callback, in order |
| TimerWheelModel.Once | godby/include/godby/TimerWheel.h:167-311 | in any history of the wheel, an event left alone is pending or was fired once at its tick |
| TimerWheelModel.CompleteSplit | godby/include/godby/TimerWheel.h:194-218 | advancing in two parts gives the same wheel, with the same firings at the same ticks, as advancing once |
| TimerWheelModel.ProcessTurn | godby/include/godby/TimerWheel.h:288-311 | doing any one turn at the highest level that has work leaves the outcome of the tick the same |
| TimerWheelModel.ProcessClear | godby/include/godby/TimerWheel.h:196-201 | processing again a level that is done does nothing |
| TimerWheelModel.NeverCurrent | godby/include/godby/TimerWheel.h:221-235 | scheduling never chooses a slot that is current on any level |
| TimerWheelModel.LevelFits | godby/include/godby/TimerWheel.h:226-230 | the level chosen is the first on which the distance is below 256, and there it is not zero |
| TimerWheelModel.ClimbOn | godby/include/godby/TimerWheel.h:227-230 | the loop of schedule computes the distance on the next level without overflow |
| TimerWheelModel.ShiftTick | godby/include/godby/TimerWheel.h:193-218 | one tick on, a level clock moves exactly if all lower digits are zero |
| TimerWheelModel.DueLeast | godby/include/godby/TimerWheel.h:297-304 | an event in the current slot of a level that is due is not overdue |
| TimerWheelModel.ClearAhead | godby/include/godby/TimerWheel.h:288-311 | when a tick is done every scheduled event is ahead of the clock on its level |
| TimerWheelModel.ScheduleKeeps | godby/include/godby/TimerWheel.h:221-235 | scheduling keeps the wheel sound and adds to no current slot |
| TimerWheelModel.CancelKeeps | godby/include/godby/TimerWheel.h:28-32 | cancelling keeps the wheel sound and adds to no current slot |
| TimerWheelModel.PoppedKeeps | godby/include/godby/TimerWheel.h:296-309 | executing an event keeps the history on time |
| TimerWheelModel.CascadeKeeps | godby/include/godby/TimerWheel.h:302-304 | moving an event to a lower level keeps its tick and the wheel sound |
| TimerWheelModel.Turn | godby/include/godby/TimerWheel.h:295-310 | each turn keeps the wheel sound and leaves fewer events in the current slot and no more in any other, so the loop ends |
| TimerWheelModel.Complete | godby/include/godby/TimerWheel.h:194-218 | an advance ends with nothing left that is due, at the clock advanced by the ticks |
| TimerWheel.TimerWheel.constructor | godby/include/godby/TimerWheel.h:133-137 | a new wheel shows the start tick on all levels and has no events |
| TimerWheel.TimerWheel.Relink | godby/include/godby/TimerWheel.h:168-191 | relinking takes the event out of its list and puts it to the front of the new one, or does nothing if it is there |
| TimerWheel.TimerWheel.Detach | godby/include/godby/TimerWheel.h:171-180 | joining the neighbours takes the event out of the list |
| TimerWheel.TimerWheel.Attach | godby/include/godby/TimerWheel.h:181-190 | the event becomes the head of the list |
| TimerWheel.TimerWheel.Pop | godby/include/godby/TimerWheel.h:113-121 | popping takes the head out of the list and returns it |
| TimerWheel.TimerWheel.Reschedule | godby/include/godby/TimerWheel.h:221-235 | the level loop places the event as the model does |
| TimerWheel.TimerWheel.Schedule | godby/include/godby/TimerWheel.h:221-235 | scheduling changes the wheel as the model does |
| TimerWheel.TimerWheel.Cancel | godby/include/godby/TimerWheel.h:28-32 | cancelling takes the event out of its slot, or does nothing if it is in none |
| TimerWheel.TimerWheel.TurnOnce | godby/include/godby/TimerWheel.h:295-310 | one turn executes the event, with all that its callback does, or moves it to a lower level, as the model does |
| TimerWheel.TimerWheel.ProcessCurrentSlot | godby/include/godby/TimerWheel.h:288-311 | processing, stopped short or not, leaves the outcome of the tick the same; stopping short uses up the budget |
| TimerWheel.TimerWheel.DrainSlot | godby/include/godby/TimerWheel.h:295-310 | the loop over the slot, stopped short or not, leaves the outcome of the tick the same |
| TimerWheel.TimerWheel.AdvanceLevel | godby/include/godby/TimerWheel.h:194-218 | the recursive advance of a higher level moves its clock once per tick, also when resumed |
| TimerWheel.TimerWheel.Advance | godby/include/godby/TimerWheel.h:194-218 | however often it is stopped and resumed, an advance comes to the wheel of one uninterrupted advance, clock plus ticks left grows by the ticks requested, and every callback of what was executed has been carried out |
| TimerWheel.TimerWheel.TicksToWakeup | godby/include/godby/TimerWheel.h:254-285 | the search over lists and levels computes the model function |
| TimerWheel.UnlinkLinks | godby/include/godby/TimerWheel.h:171-180 | joining the neighbours of an event leaves all other lists as they were |
| TimerWakeup.WakeExact | godby/include/godby/TimerWheel.h:254-285 | with nothing pending the answer is the least of max and the distance to the earliest event, if and only if: where max lets the search come to the lowest level in use, each event two or more levels above it is no nearer than max or than some event of that level or the next; where it does not, no event is nearer than max |
| TimerWakeup.SearchLevel | godby/include/godby/TimerWheel.h:260-280 | the search of a level in use returns the least of max and the distance to the earliest event of that level and the next |
| TimerWakeup.StopLevel | godby/include/godby/TimerWheel.h:269-279 | the nearest event of the first slot in use, or a nearer one seen on the next level, is the earliest of the two levels |
| TimerWakeup.BeforeNext | godby/include/godby/TimerWheel.h:262-268 | an event found on a level is before those of the next level, but for the slot of that level to which the search looks when it is carried |
| TimerWakeup.EmptyLevel | godby/include/godby/TimerWheel.h:260-284 | from a level without events the search goes on to the next or gives up, and what it has seen above is forgotten |
| TimerWakeup.Climbed | godby/include/godby/TimerWheel.h:282-284 | with no event below a level the search comes to that level if max is large enough, and answers max if not |
| TimerWakeup.LowLevelsExact | godby/include/godby/TimerWheel.h:254-285 | with nothing pending and no event above level 1 the answer is the least of max and the distance to the earliest event |
| TimerWakeup.NeverEarly | godby/include/godby/TimerWheel.h:254-285 | the answer is always max or the distance of some event, so it is never too small |
| TimerWakeup.DoubleCarryMissed | godby/include/godby/TimerWheel.h:262-268 | a reachable wheel for which the answer is 100 although an event is due in 6 ticks: the search looks one level up only |
| TimerWakeup.SeenButForgotten | godby/include/godby/TimerWheel.h:282-284 | a reachable wheel for which the answer is max, 500, although an event is due in 305 ticks and the search has seen it: 500 does not reach the level of the event |
| TimerWakeup.FarQuiet | godby/include/godby/TimerWheel.h:194-218 | a far event alone lets the clock run to tick 65535 without any change |
| AtomicQueue.Exclusive | godby/include/godby/AtomicQueue.h:147-198 | no two threads are ever at the element of the same slot |
| AtomicQueue.Owned | godby/include/godby/AtomicQueue.h:147-198 | a slot that is being stored or loaded has exactly one thread that does it |
| AtomicQueue.Conserved | godby/include/godby/AtomicQueue.h:147-260 | every item pushed and not refused is in exactly one place: with its producer, in one slot, with one consumer, or returned, with its value |
| AtomicQueue.ReturnedOnce | godby/include/godby/AtomicQueue.h:147-260 | no item is returned twice and none that was not pushed |
| AtomicQueue.WithinALap | godby/include/godby/AtomicQueue.h:202-233 | with only try_push and try_pop, head is at most size ahead of tail and never behind |
| AtomicQueue.Matched | godby/include/godby/AtomicQueue.h:202-233 | at each slot the consumers with a ticket are no more than its item and its producers, and the producers no more than its room and its consumers |
| AtomicQueue.ConsumerIsServed | godby/include/godby/AtomicQueue.h:150-173 | a consumer that waits at an empty slot is waiting for a producer with a ticket for that slot |
| AtomicQueue.ProducerIsServed | godby/include/godby/AtomicQueue.h:176-198 | a producer that waits at a full slot is waiting for a consumer with a ticket for that slot |
| AtomicQueue.RemapSwaps | godby/include/godby/AtomicQueue.h:40-46 | the exclusive ors swap the two lowest groups of bits of the index |
| AtomicQueue.RemapTwice | godby/include/godby/AtomicQueue.h:40-46 | remapping twice is the identity, so the mapping is a permutation |
| AtomicQueue.RemapInRange | godby/include/godby/AtomicQueue.h:40-46 | a remapped index stays inside the array |
| AtomicQueue.SlotInRange | godby/include/godby/AtomicQueue.h:338-349 | every ticket has a slot inside the array |
| AtomicQueue.SlotsDiffer | godby/include/godby/AtomicQueue.h:338-349 | tickets less than a lap apart go to different slots |
| AtomicQueue.LapTickets | godby/include/godby/AtomicQueue.h:338-349 | a lap of tickets has at most one for each slot |
| AtomicQueue.WrapKeepsSlots | godby/include/godby/AtomicQueue.h:338-349 | 32-bit tickets name the slots of unbounded tickets if and only if the size divides 2 to the 32 |
| AtomicQueue.WrapKeepsApart | godby/include/godby/AtomicQueue.h:338-349 | tickets less than a lap apart keep different slots as 32-bit words if and only if the size divides 2 to the 32 |
| AtomicQueue.ThreeCollide | godby/include/godby/AtomicQueue.h:338-349 | with three slots the last ticket before the wrap and the first after it have the same slot |
| AtomicQueue.SignedDifference | godby/include/godby/AtomicQueue.h:202-233 | the signed difference of the ticket words is the difference of the tickets |
| AtomicQueue.StepKeeps | godby/include/godby/AtomicQueue.h:147-260 | every step keeps the invariant on threads, slots and items |
| AtomicQueue.StepCounts | godby/include/godby/AtomicQueue.h:147-260 | every step keeps the account of tickets, pending operations and full slots of each slot |
| AtomicQueue.StepBounds | godby/include/godby/AtomicQueue.h:202-233 | every step of try_push and try_pop keeps head and tail within a lap, although each reads the other counter earlier |
| AtomicQueue.GivesUpRightly | godby/include/godby/AtomicQueue.h:202-233 | a push refuses only in a state in which the queue is full, a lap ahead with try_push and try_pop alone, and a pop comes back empty only in a state in which it is empty |
| AtomicQueue.OwnStep | godby/include/godby/AtomicQueue.h:147-260 | every access of a call ends it, with its item in the slot or returned, or brings it nearer to its end, unless it waits at a slot for another or a weak exchange fails spuriously |
| AtomicQueue.CanStep | godby/include/godby/AtomicQueue.h:147-260 | a thread inside a call always has an access to make that does not fail spuriously |
| AtomicQueue.RunInv | godby/include/godby/AtomicQueue.h:147-260 | the invariants hold at the end of every run |
| AtomicQueueOrder.FirstInFirstOut | godby/include/godby/AtomicQueue.h:147-260 | as long as no slot has two producers or two consumers with a ticket, the item that a pop takes out is the one whose push had the ticket with the number of its pop ticket |
| AtomicQueueOrder.OrderBroken | godby/include/godby/AtomicQueue.h:202-233 | a concrete run of try_push and try_pop in which an item pushed later is returned earlier, since a producer has stalled between its ticket and its slot |
| AtomicQueueOrder.BeginsPush | godby/include/godby/AtomicQueue.h:202-216 | with room in the queue try_push takes a ticket if nobody disturbs it |
| AtomicQueueOrder.EndsPop | godby/include/godby/AtomicQueue.h:159-173 | at a full slot a consumer with a ticket ends its call with the item |
| PoolAllocator.OneOwner | samples/io_service.h:321-360 | no chunk ever has two live owners |
| PoolAllocator.NoneLostOrShared | samples/io_service.h:300-360 | every chunk is in exactly one place: in the free list once, with one owner, or carried by one thread |
| PoolAllocator.HeadReachesAll | samples/io_service.h:300-360 | the chain from the head is the free list, link by link, down to null |
| PoolAllocator.OneBlockMaker | samples/io_service.h:301-315 | at most one thread makes a block at a time, and the flag is up exactly while one does |
| PoolAllocator.OwnStep | samples/io_service.h:300-361 | every access of allocate and deallocate ends the call, with the first free chunk or with the chunk put before the free list, or brings it nearer to its end, unless another thread is making a block |
| PoolAllocator.CanStep | samples/io_service.h:300-361 | a thread inside a call always has an access to make |
| PoolAllocator.ReadIsInBlocks | samples/io_service.h:326-334 | the next field that allocate reads is of a chunk of some block, whoever uses it by then |
| PoolAllocator.AllocateTakeKeeps | samples/io_service.h:326-337 | an exchange that succeeds hands out the first free chunk and keeps the invariant, although next was read earlier and users may have overwritten it |
| PoolAllocator.BlockMadeKeeps | samples/io_service.h:301-308 | making a block of new chunks keeps the invariant |
| PoolAllocator.BlockPublishedKeeps | samples/io_service.h:309-315 | joining a new block before the free list keeps the invariant |
| PoolAllocator.DeallocateDoneKeeps | samples/io_service.h:349-360 | a chunk given back by a successful exchange keeps the invariant |
| PoolAllocator.UserWriteKeeps | samples/io_service.h:321-360 | an owner writing anything over the next field of its chunk keeps the invariant |
| PoolAllocator.StepKeeps | samples/io_service.h:300-360 | every step keeps the invariant |
| PoolAllocator.RunInv | samples/io_service.h:300-360 | the invariant holds at the end of every run |
| NumberTheory.Euclid | godby/mathematics/Prime.cc:22-42 | a prime that divides a product divides a factor |
| NumberTheory.Binomial | godby/mathematics/Prime.cc:22-42 | the binomial theorem |
| NumberTheory.PrimeChoose | godby/mathematics/Prime.cc:22-42 | a prime divides its inner binomial coefficients |
| NumberTheory.Fermat | godby/mathematics/Prime.cc:22-42 | a to the p - 1 is one modulo a prime p that does not divide a |
| NumberTheory.RootsOfOne | godby/mathematics/Prime.cc:35-39 | modulo a prime only one and minus one are square roots of one |
| NumberTheory.Pocklington | godby/mathematics/Prime.cc:69-76 | a number is prime if a large prime divides it less one and two powers are as they should: a certificate for numbers beyond trial division |
| Primality.Power | godby/mathematics/Prime.cc:10-20 | the loop computes the power modulo mod, and no product leaves 64 bits |
| Primality.Witness | godby/mathematics/Prime.cc:22-42 | the loop answers true if and only if a is a witness: the chain of squares has an odd root of one or does not end at one |
| Primality.PrimeHasNoWitness | godby/mathematics/Prime.cc:22-42 | a prime has no witness, so a witness means composite |
| Primality.TrialExact | godby/mathematics/Prime.cc:49-55 | trial division by 6k - 1 and 6k + 1 up to the root is exact |
| Primality.WitnessIs | godby/mathematics/Prime.cc:22-42 | a number has a witness exactly if it is not a strong probable prime: with n - 1 split into an odd part and a power of two, the chain of squares neither begins with one nor passes minus one |
| Primality.AcceptsStrong | godby/mathematics/Prime.cc:57-67 | from 1373653 to 2 to the 32 the test accepts exactly the numbers not divisible by 2 and 3 that are strong probable primes to its bases, all of which pass the test of Fermat |
| Primality.AcceptsLowWord | godby/mathematics/Prime.cc:63-67 | from 9080191 on it accepts exactly the numbers not divisible by 2 and 3 whose low word is a strong probable prime to 2, 7 and 61 |
| Primality.CompositeRejected | godby/mathematics/Prime.cc:57-61 | 1373665 = 5 * 274733 is rejected |
| Primality.IsPrime | godby/mathematics/Prime.cc:45-67 | the test computes its specification on every input on which it halts |
| Primality.NeverRejects | godby/mathematics/Prime.cc:45-67 | no prime below 2 to the 32 is rejected |
| Primality.ExactBelowLimit | godby/mathematics/Prime.cc:45-55 | below 1373653 a number is accepted if and only if it is prime |
| Primality.NextPrime | godby/mathematics/Prime.cc:80-87 | the result is the first accepted number; no prime below 2 to the 32 is stepped over, and below 1373653 the result is the next prime |
| Primality.PrimeReached | godby/mathematics/Prime.cc:79-87 | from any number the search comes to every prime below 2 to the 32 after it, if not to an earlier accepted number |
| Primality.LowWordDecides | godby/mathematics/Prime.cc:63-67 | from 9080191 on the answer depends on the low 32 bits only |
| Primality.AcceptsPrimeWord | godby/mathematics/Prime.cc:63-76 | from 2 to the 32 on every odd number, not a multiple of 3, whose low word is a prime above 61 is accepted, prime or not |
| Primality.CompositeAccepted | godby/mathematics/Prime.cc:63-76 | 2 to the 32 plus 79, a multiple of 5 in the range that the comment promises, is accepted |
| Primality.PrimeRejected | godby/mathematics/Prime.cc:63-76 | 2 to the 32 plus 15, a prime in that range, is rejected |
| Primality.FirstLongPrime | godby/mathematics/Prime.cc:69-76 | 2 to the 32 plus 15 is prime |
| Primality.HalvesForEver | godby/mathematics/Prime.cc:22-32 | inputs whose low 32-bit word is 1, such as 2 to the 32 plus 1, halve 0 for ever, although the comment promises the range |
| Primality.OddPartTwos | godby/mathematics/Prime.cc:26-32 | the halving loop splits n - 1 into an odd part and a power of two |
| Primality.ChainStep | godby/mathematics/Prime.cc:35-40 | squaring modulo n moves one step along the chain of powers |
| AtomicHashmap.Hashmap.constructor | godby/include/godby/AtomicHashmap.h:232-243 | a new map is empty |
| AtomicHashmap.Hashmap.Lookup | godby/include/godby/AtomicHashmap.h:426-438 | the loop finds the first home of the key that holds it |
| AtomicHashmap.Hashmap.Occupy | godby/include/godby/AtomicHashmap.h:440-463 | the loop finds a bucket if and only if on some level the home of the key is empty or holds it, and writes the key into that of the lowest such level |
| AtomicHashmap.Hashmap.Get | godby/include/godby/AtomicHashmap.h:262-266 | a lookup returns the value of the map |
| AtomicHashmap.Hashmap.Set | godby/include/godby/AtomicHashmap.h:269-281 | there is no entry if and only if every home of the key holds another key; otherwise the bucket of the lowest available level is taken and no other changes; a success updates the map, a failure for want of memory loses the key unless it stays in its bucket |
| AtomicHashmap.Hashmap.Delete | godby/include/godby/AtomicHashmap.h:283-287 | exactly the key is removed, with all its copies |
| AtomicHashmap.SetIsUpdate | godby/include/godby/AtomicHashmap.h:269-281 | setting a key is an update of the map whatever stale copies there are |
| AtomicHashmap.OccupyLowest | godby/include/godby/AtomicHashmap.h:440-463 | a bucket is found if and only if some level has a home that is empty or holds the key, and it is that of the lowest such level |
| AtomicHashmap.FailedSetIsAbsent | godby/include/godby/AtomicHashmap.h:440-463 | a set that finds no bucket means that the key has no copy |
| AtomicHashmap.NoMemoryLoses | godby/include/godby/AtomicHashmap.h:269-281 | a set without memory for the value hides the old value behind an empty copy, unless the key stays in its bucket |
| AtomicHashmap.LostInHole | godby/include/godby/AtomicHashmap.h:269-281 | a reachable map in which a set without memory for the value loses the key |
| AtomicHashmap.LookupOccupied | godby/include/godby/AtomicHashmap.h:440-463 | the copy on the lowest level, the newest, is the one that is seen |
| AtomicHashmap.LookupOther | godby/include/godby/AtomicHashmap.h:440-463 | writing one key is not seen by lookups of others |
| AtomicHashmap.DeleteIsRemoval | godby/include/godby/AtomicHashmap.h:325-331 | deleting takes all copies, so none becomes visible later |
| AtomicHashmap.StaleCopy | godby/include/godby/AtomicHashmap.h:440-463 | a concrete history that leaves a stale second copy with an old value |
| ZOrder.LessIsMorton | samples/test-SignalSlot.cc:423-429 | the comparison with three exclusive ors is the comparison of the interleaved bits |
| ZOrder.StrictTotalOrder | samples/test-SignalSlot.cc:423-429 | the comparison is a strict total order |
| ZOrder.CodeInjective | samples/test-SignalSlot.cc:423-429 | different keys have different interleavings |
| ZOrder.TopHalves | samples/test-SignalSlot.cc:427-427 | the comparison of highest bits does not depend on the lowest bits |
| ZOrder.UpperBound | samples/test-SignalSlot.cc:447-447 | the binary search ends where everything before is not above the key and everything from there on is |
| ZOrder.LowerBound | samples/test-SignalSlot.cc:466-466 | the binary search ends where everything before is below the key and nothing from there on is |
| ZOrder.Observer.Insert | samples/test-SignalSlot.cc:442-448 | the connection goes behind all of its key and the connections stay sorted |
| ZOrder.Observer.Remove | samples/test-SignalSlot.cc:458-468 | exactly the connections of the key are erased, the others stay in order |
| ZOrder.InsertSorted | samples/test-SignalSlot.cc:442-448 | inserting at the upper bound keeps the order |
| ZOrder.RangeIsKey | samples/test-SignalSlot.cc:466-467 | between the bounds are exactly the connections of the key |
| Bits.XorSplit | godby/include/godby/AtomicQueue.h:40-46 | the exclusive or of numbers is that of their low bits beside that of the others |

## Left out

- Weak-memory effects, fences and membarrier: sequential consistency is assumed.
- SharedPtr: the same-type copy constructor of `WeakPtr` takes no weak unit and is not modelled; nor are deleters, allocators and `enable_shared_from_this`.
- SharedPtr: the second access inside `decrement`, disposal that drops further pointers from inside, and threads that exit and hand on their slot are not modelled.
- SharedPtr.EnableKeeps: the switch to incremental reclamation is one step and gives every slot its reclaimer; a slot appended while the source is switching gets none.
- SharedPtr.RetiredBounded: no bound is claimed for what waits in incremental mode.
- SharedPtr.WorkSlot: that the eligible blocks were retired before the scan began is not said as such, but by the hazards they are covered for.
- RetiredList: next fields are a map from objects to objects rather than fields of heap objects, so memory that was freed can still be named.
- StickyLoads.ExactIff: for runs in which a load comes back for a second access and finds a nonzero count, only the sufficient direction is proved, and that the other is false.
- StealingQueue: `pop` before the first push, which subtracts from an unsigned zero, is excluded, and elements are abstract atomic values.
- StealingExecutor: pause, purge, shutdown, several submitters and tasks that submit tasks are not modelled; a wait on a condition variable is asking again.
- RobinHoodTable.Table.TryEmplace: the insertion that would fill the last of 2 to the 32 buckets, and the overflow error behind it, are excluded by `HasRoom`: a table without an empty bucket is not modelled.
- RobinHoodTable.Table.PlaceElement: the same bound.
- RobinHoodTable.Table.IncreaseSize: called below 2 to the 32 buckets only, where the source does not throw.
- RobinHoodTable.Table.InsertOrAssign: the same bound; keys and values that throw, segmented containers, iterators and allocators are not modelled.
- RobinHoodIndex.WordsFit: the table is modelled with unbounded words; from 2 to the 24 buckets on, that distances stay below 2 to the 24 depends on the hash function.
- TimerWheel: events are names with link fields in maps, so destruction of an event object is a cancel; `schedule_in_range`, callbacks that advance the wheel, and clocks past 2 to the 64 are not modelled. `max_execute` is passed on by value to higher levels, so no total bound on executions is claimed.
- AtomicQueueOrder.FirstInFirstOut: single file is shown sufficient for the order, not necessary: two producers at a slot may happen to go in order.
- AtomicQueue: the variant for atomic elements with a null value and the single-producer mode are not modelled.
- PoolAllocator: the tag is unbounded, construction and destruction of the objects is the user's writing, and the block list itself is not modelled.
- Primality: that no composite passes the Rabin-Miller test for the chosen bases rests on published tables and is not claimed.
- Primality.NextPrime: that there is an accepted number ahead, and none on the way on which the test does not halt, is a ghost argument.
- AtomicHashmap.Hashmap.constructor: the level sizes are given; the source computes them in floating point.
- AtomicHashmap: concurrent `Set` and `Delete` and reference counts of keys and values are not modelled; failure to allocate a key is the same as finding no bucket.
- ZOrder: observers are names; locking, tracking and disconnecting across observers are not modelled.
- io_uring, coroutines, sockets, signals, `SharedStorage`, `function2`, thread pools and benchmarks: input and output, library plumbing or type erasure.
- `Seqlock`, `Spinlock`, `Barrier`, `AtomicOptional`, `ExpiringLruCache` and `Math.h`: they would add easier members only.
