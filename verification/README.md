# Models of the FreeBSD 9.0 kernel and libc headers

The repository ships the headers of FreeBSD 9.0 with their inline functions and macros. This project
models the parts of them that hold real logic and proves what they promise: a lock-free ring buffer,
the network send queues and the interface-list locks, the recursive page-table map and the direct
map, CPU sets, the in-line half of putc and getc, and the floating-point environment.

| module | what it models |
|---|---|
| `Wrappers` | the optional value and the error number that several headers return |
| `Bits` | machine words as naturals, the bitwise operators, masking as reduction |
| `RingProtocol` | sys/buf_ring.h as a transition system: any number of threads, one step per shared load, store or compare-and-set |
| `RingInvariant`, `RingRuns` | the invariant of that system, kept by every step and every run |
| `RingTheorems` | what the ring promises in every reachable state |
| `RingProgress` | what a call comes to over every run: bounded progress, and the conditional dequeue |
| `RingCalls` | what every call answers, from its first event to its return, in every run |
| `RingSolo` | uninterrupted calls as runs of the protocol |
| `RingLap` | concrete runs that show why the heads must not lap, and what happens when they merely move |
| `RingObject` | the same ring as an object with in-place fields, and the drbr_ layer |
| `IfQueue` | the linked packet queues of net/if_var.h, in place |
| `IfqProtocol` | one driver thread and any number of senders on those queues |
| `IfqCalls` | what every call on those queues answers, from its first event to its return, in every run |
| `IfnetLocks` | the two-lock protocol of the interface list |
| `PageMap` | the recursive slot against a four-level page walk |
| `DirectMap` | PHYS_TO_DMAP and DMAP_TO_PHYS |
| `CpuSet`, `CpuSetAtomic` | the CPU_ macros on word arrays, and interleavings of the atomic ones |
| `StdioPut` | the FILE counters, both forms of __sputc, and __sgetc |
| `FpEnv` | the x87 and SSE halves of the floating-point environment |

## How the ring is stated

A run starts from a ring as `buf_ring_alloc` hands it out (size a power of two from 2 to 2^30, mask
size - 1, all indices 0) and is any sequence of steps that can happen. Beside the machine state runs
a history that no step reads: what producers and consumers claimed, in the order of their claims.
The compare-and-set looks at the wrapped index only, so the protocol is sound only if a head does not
make a full lap between a thread's load and its successful compare-and-set. This is the hypothesis
`RunUnlapped` on a run. The theorems need less, namely that a successful compare-and-set finds room
(`RunHasRoom`); `UnlappedIsReachable` shows that the first implies the second,
`BoundsExactlyWithRoom` that the second is exactly what keeps the counters in order, and
`LappedClaimLosesEntries` gives a run without it that loses entries.

## Where the code does less than its comments suggest

- The enqueue may answer ENOBUFS although the ring was never full, and the dequeue NULL although it
  held an entry throughout the call: the head may move between the two loads. `EnqueueRefusal` and
  `DequeueRefusal` say exactly when the answer is honest; `SpuriousNoBufs` and `SpuriousNull` give the
  runs, neither of which laps.
- The comment on NDMPML4E asks for a power of two. Of the ten powers of two that a table of 512 entries
  allows, 256 and 512 give an empty map and 128 one that begins at the recursive slot PML4PML4I; the
  map has the size asked for and avoids that slot exactly for 64 and less (`MapExactly`), and the
  conversions work exactly for 128 and less (`InvertsExactly`).
- A NULL put into a ring ends drbr_flush early and leaves the later packets in place (`DrbrFlush`).
- KVADDR sets bit 47 whatever the top index says, so a top index below 256 does not come back
  (`KvaddrIndices`).
- feclearexcept does not check its argument; bits outside FE_ALL_EXCEPT can put the two units out of
  step (`StrayClearRound`, `StrayClearMasks`, `StrayClearExample`).
- A page-table entry that is on the walk to itself may be rewritten through its window, but with the
  PAT bit set the walk takes it for a large page (`StoreThroughWindow`).

## Model

| member | source | states |
|---|---|---|
| `RingRuns.StepKeeps` | include/sys/buf_ring.h:76-222 | every step of every thread, of either enqueue or dequeue or of the peek, keeps the whole invariant of the ring if a compare-and-set that succeeds finds room |
| `RingRuns.RunKeeps` | include/sys/buf_ring.h:76-222 | so does every run of any number of threads |
| `RingRuns.UnlappedHasRoom` | include/sys/buf_ring.h:92-104 | a compare-and-set on a head that has not moved since it was loaded finds room, because the opposite tail can only have advanced |
| `RingRuns.UnlappedRunHasRoom` | include/sys/buf_ring.h:91-104 | the same for every claim of a run |
| `RingRuns.BoundsExactlyWithRoom` | include/sys/buf_ring.h:102-104 | the counters stay in order throughout a run if and only if every successful claim found a free slot or a published entry |
| `RingRuns.FrontSlot` | include/sys/buf_ring.h:243-246 | the slot at br_cons_head holds the oldest entry not yet claimed |
| `RingTheorems.UnlappedIsReachable` | include/sys/buf_ring.h:91-104 | runs in which no head laps between a load and its compare-and-set are covered by all theorems on reachable states |
| `RingTheorems.CountersOrdered` | include/sys/buf_ring.h:76-179 | cons_tail <= cons_head <= prod_tail <= prod_head <= cons_tail + size - 1 for the unwrapped counters, whose remainders by size are the four stored indices |
| `RingTheorems.SlotsInRange` | include/sys/buf_ring.h:109-109 | no thread ever needs a slot outside the array |
| `RingTheorems.FifoExactlyOnce` | include/sys/buf_ring.h:91-121 | what finished dequeues have taken, in claim order, is a prefix of what producers claimed places for; every read returns the entry of its own ticket, and nothing is claimed before it is published |
| `RingTheorems.DequeueReturnsInOrder` | include/sys/buf_ring.h:161-178 | dequeues finish in ticket order, each returning the oldest entry not yet returned |
| `RingTheorems.StepRefinesQueue` | include/sys/buf_ring.h:76-222 | every step refines one first-in first-out queue: publishing appends, either kind of claim removes the front of a queue that is not empty, everything else leaves it alone |
| `RingTheorems.ClaimTakesFront` | include/sys/buf_ring.h:157-209 | the compare-and-set of the multi-consumer dequeue and the plain store of the single-consumer one take the same abstract step: the ticket of the front |
| `RingTheorems.SlotsExclusive` | include/sys/buf_ring.h:102-175 | no two threads that have claimed a slot, producers or consumers, work on the same one |
| `RingTheorems.ClaimedSlotUntouched` | include/sys/buf_ring.h:157-175 | a slot claimed by a consumer keeps its contents until that consumer advances br_cons_tail |
| `RingTheorems.SectionExclusive` | include/sys/buf_ring.h:117-121 | at most one producer is between leaving the spin loop and storing br_prod_tail |
| `RingTheorems.StatisticsExact` | include/sys/buf_ring.h:119-120 | with nobody there, br_prod_bufs and br_prod_bytes have grown by the number and the byte sum of the published entries modulo 2^64, though each update is a load and a store |
| `RingTheorems.RefusalChangesNothing` | include/sys/buf_ring.h:97-100 | a thread that holds no ticket and takes none changes nothing in the ring, so a refused call has no effect |
| `RingTheorems.EnqueueRefusal` | include/sys/buf_ring.h:92-100 | with the head still where it was loaded, ENOBUFS is answered exactly when size - 1 entries are outstanding; an honest refusal implies that the head is still there |
| `RingTheorems.DequeueRefusal` | include/sys/buf_ring.h:147-155 | the same for NULL and an empty queue |
| `RingTheorems.SoleRefusal` | include/sys/buf_ring.h:193-200 | the single-consumer dequeue and the peek answer NULL exactly when nothing is pending |
| `RingTheorems.PeekShowsFront` | include/sys/buf_ring.h:229-247 | the packet the condition of drbr_dequeue_cond is asked about is the front of the queue, and stays it |
| `RingTheorems.ProducersNeverDeadlock` | include/sys/buf_ring.h:117-118 | whenever a producer holds a ticket, the producer whose turn it is can make a step that changes something |
| `RingTheorems.ConsumersNeverDeadlock` | include/sys/buf_ring.h:172-173 | the same for consumers |
| `RingProgress.ProducersProgress` | include/sys/buf_ring.h:109-121 | while tickets are held, the producer whose turn it is can step, and in every run br_prod_tail moves on exactly when that thread has taken its remaining steps, at most seven, whatever the others do |
| `RingProgress.ConsumersProgress` | include/sys/buf_ring.h:161-175 | the same for br_cons_tail, with at most three steps |
| `RingProgress.ProdTurnStep` | include/sys/buf_ring.h:109-121 | a step of that producer brings the store one nearer and nobody else's step puts it off |
| `RingProgress.ConsTurnStep` | include/sys/buf_ring.h:161-175 | the same for the consumer whose turn it is |
| `RingProgress.AcceptedIsReturned` | include/net/if_var.h:657-661 | in every run that follows the acceptance of a packet by the condition, whatever producers do, the call returns exactly that packet, never NULL, with its fifth step |
| `RingCalls.EnqueueAnswers` | include/sys/buf_ring.h:76-124 | in every run, an enqueue that returns 0 has claimed exactly one place since its call, for its own buffer and length, and it is published; one that returns ENOBUFS has claimed none and saw the ring look full; there is no other answer |
| `RingCalls.DequeueAnswers` | include/sys/buf_ring.h:137-222 | in every run, a dequeue of any of the three kinds that returns a buffer has claimed exactly one entry since its call, and it is that one; one that returns NULL has claimed none and saw the ring look empty or, with a condition, a front that was NULL or rejected |
| `RingCalls.EnqueueReturnsAlone` | include/sys/buf_ring.h:91-123 | from any point of an enqueue, if no other producer is past its claim and the thread runs alone, it returns within twelve steps; a lost compare-and-set is retried with fresh loads |
| `RingCalls.DequeueReturnsAlone` | include/sys/buf_ring.h:146-178 | the same for the multi-consumer dequeue, within eight steps |
| `RingCalls.LostClaim` | include/sys/buf_ring.h:102-159 | a compare-and-set is lost only to another thread's claim |
| `RingCalls.FrontReachesCondition` | include/net/if_var.h:657-658 | in every run, a conditional dequeue on a queue whose front is a packet asks the condition about that packet with its fourth step, and does not return before |
| `RingCalls.RejectedIsKept` | include/net/if_var.h:658-659 | after a rejection the call returns NULL and the packet is still the front |
| `RingTheorems.ObserversAtRest` | include/sys/buf_ring.h:249-269 | with no call in progress buf_ring_count, in wrapping 32-bit arithmetic, is the queue's length, empty holds iff it is 0, full iff it is size - 1, and never both |
| `RingTheorems.FullExactly` | include/sys/buf_ring.h:249-254 | in any state, with calls in progress, buf_ring_full holds exactly when size - 1 entries are claimed and not yet released |
| `RingTheorems.EmptyExactly` | include/sys/buf_ring.h:256-261 | in any state buf_ring_empty holds exactly when nothing is published and unclaimed |
| `RingTheorems.CountIsDifference` | include/sys/buf_ring.h:263-269 | in any state buf_ring_count is the distance of the two tails |
| `RingLap.LappedClaimLosesEntries` | include/sys/buf_ring.h:102-103 | a run in which a head laps: at its end the ring looks empty with two entries in it |
| `RingLap.SpuriousNoBufs` | include/sys/buf_ring.h:92-100 | a run without a lap in which ENOBUFS is answered and no state on the way has size - 1 entries outstanding |
| `RingLap.SpuriousNull` | include/sys/buf_ring.h:147-155 | a run without a lap in which NULL is answered and every state of the call has a published, unclaimed entry |
| `RingSolo.EnqueueCall` | include/sys/buf_ring.h:76-124 | a thread that calls enqueue and is not interrupted takes the ring of the protocol to the very memory, and returns the very answer, that the object's EnqueueBytes is proved to give |
| `RingSolo.DequeueMcCall` | include/sys/buf_ring.h:137-179 | the same for the multi-consumer dequeue |
| `RingSolo.DequeueScCall` | include/sys/buf_ring.h:186-222 | the same for the single-consumer dequeue, with the same effect |
| `RingObject.BufRing.constructor` | include/sys/buf_ring.h:271-272 | a new ring holds nothing |
| `RingObject.BufRing.EnqueueBytes` | include/sys/buf_ring.h:76-124 | appends the buffer and counts it, or refuses exactly a ring of size - 1 entries and changes nothing; the fields change as in the protocol's uninterrupted run |
| `RingObject.BufRing.CmpsetProdHead` | include/machine/atomic.h:133-152 | compares and sets in one step, and reports whether it did |
| `RingObject.BufRing.DequeueMc` | include/sys/buf_ring.h:137-179 | takes the front, or reports an empty ring; the fields change as in the protocol's uninterrupted run |
| `RingObject.BufRing.DequeueSc` | include/sys/buf_ring.h:186-222 | has the contract of the multi-consumer dequeue |
| `RingObject.BufRing.Peek` | include/sys/buf_ring.h:229-247 | shows the front and changes nothing |
| `RingObject.BufRing.Full` | include/sys/buf_ring.h:249-254 | true exactly for size - 1 entries |
| `RingObject.BufRing.Empty` | include/sys/buf_ring.h:256-261 | true exactly for no entries |
| `RingObject.BufRing.Count` | include/sys/buf_ring.h:263-269 | the number of entries |
| `RingObject.BufRing.DrbrEnqueue` | include/net/if_var.h:582-602 | a refused packet is counted as dropped and freed once, an accepted one is appended and counted with its length |
| `RingObject.BufRing.DrbrFlush` | include/net/if_var.h:604-615 | frees everything in the ring once, oldest first, up to the first NULL in it |
| `RingObject.BufRing.DrbrDequeueCond` | include/net/if_var.h:657-661 | removes the front exactly when there is one and the condition accepts it |
| `RingObject.RestContents` | include/sys/buf_ring.h:44-70 | in a state of the protocol with no call in progress the array and the indices stand for the protocol's queue, so object and protocol agree |
| `IfQueue.PktList.Append` | include/net/if_var.h:278-286 | appends to the chain and keeps it acyclic, ended by NULL, from head to tail, with len its length |
| `IfQueue.PktList.Prepend` | include/net/if_var.h:294-300 | the same at the front |
| `IfQueue.PktList.Remove` | include/net/if_var.h:308-316 | takes the first packet, with its link cleared, or answers NULL for an empty chain |
| `IfQueue.PktList.Drain` | include/net/if_var.h:327-335 | frees every packet once, first to last, and leaves an empty queue |
| `IfQueue.PktList.FreeChain` | include/net/if_var.h:559-567 | the same by walking the links |
| `IfQueue.IfSnd.Enqueue` | include/net/if_var.h:415-432 | refuses exactly at the limit, freeing the packet and counting one drop, and appends otherwise |
| `IfQueue.IfSnd.DrvDequeue` | include/net/if_var.h:519-545 | driver queue and main queue together lose exactly their first packet, or both were empty, whatever the prefetch limit; the refill stops at the limit or at an empty main queue |
| `IfQueue.IfSnd.Refill` | include/net/if_var.h:530-542 | the loop terminates, moves as many packets as the limit allows and keeps the combined order |
| `IfQueue.IfSnd.DrvPrepend` | include/net/if_var.h:547-554 | the packet becomes the front of the combined queue |
| `IfQueue.IfSnd.DrvPurge` | include/net/if_var.h:559-569 | both queues are freed, each packet once, in order |
| `IfQueue.IfSnd.DrvIsEmpty` | include/net/if_var.h:556-557 | true exactly when both queues are empty |
| `IfQueue.IfSnd.TakeAndPutBack` | include/net/if_var.h:519-554 | a prepend right after a dequeue restores the combined sequence |
| `IfqProtocol.RunKeeps` | include/net/if_var.h:415-569 | locking, order and conservation hold throughout every run |
| `IfqProtocol.EveryOfferInOnePlace` | include/net/if_var.h:415-569 | each offer of each packet is in exactly one place: delivered or purged, driver queue, in transit, main queue, rejected, or still with its sender |
| `IfqProtocol.FirstInFirstOut` | include/net/if_var.h:519-545 | the accepted packets are those that left, in order, followed by those still queued |
| `IfqProtocol.LimitAndDrops` | include/net/if_var.h:421-430 | ifq_len never passes ifq_maxlen, and ifq_drops is the number of rejections |
| `IfqProtocol.DequeueTakesFront` | include/net/if_var.h:519-529 | under concurrent enqueues a dequeue takes the front of the combined queue, and answers NULL only if it was empty at that moment |
| `IfqProtocol.RefillChangesNothing` | include/net/if_var.h:530-542 | every step of the refill leaves the combined queue as it was |
| `IfqProtocol.EnqueueAppends` | include/net/if_var.h:415-432 | an accepted enqueue appends to the combined queue and a prepend puts in front; no other call changes it |
| `IfqProtocol.SectionTerminates` | include/net/if_var.h:528-543 | the driver's critical sections end: its next step is always possible, each brings the end nearer, and nobody else puts it off |
| `IfqCalls.DequeueAnswers` | include/net/if_var.h:519-545 | in every run, at the return of IFQ_DRV_DEQUEUE the driver has packet p exactly if Delivered(p), and nothing else, has left since the call, and p is the oldest accepted packet that had not left; it has NULL exactly if nothing has left, and then both queues were empty at some moment of the call; a call that went to the main queue has filled the driver queue to its limit or left the main queue empty |
| `IfqCalls.PurgeAnswers` | include/net/if_var.h:559-569 | in every run, at the return of IFQ_DRV_PURGE both queues are empty and all that was accepted has left, in order, the last of it purged by this call |
| `IfqCalls.EnqueueAnswers` | include/net/if_var.h:415-432 | in every run, IFQ_ENQUEUE rejects its packet, with one drop, exactly if the main queue was at its limit when the call got the lock, and otherwise appends it, as its one change |
| `IfqCalls.SenderSectionTerminates` | include/net/if_var.h:417-431 | a sender's critical section ends |
| `IfqCalls.SomeoneCanStep` | include/net/if_var.h:415-569 | while anyone is in a call, someone who is can step |
| `IfnetLocks.WriteLockExcludes` | include/net/if_var.h:783-791 | in every run, from the calls alone: a thread that called IFNET_WLOCK and made exactly its two lock operations holds both locks exclusively, and no other thread is anywhere between the operations of a write lock or has a read lock of either kind |
| `IfnetLocks.ReadLockExcludesWriters` | include/net/if_var.h:804-807 | in every run, from the calls alone: a thread with a read lock shares the lock of its kind and no thread has the write lock |
| `IfnetLocks.SomeoneFinishes` | include/net/if_var.h:783-807 | in every run, while some thread has lock operations left, some such thread can do its next |
| `IfnetLocks.AllUnlockedIsFree` | include/net/if_var.h:788-807 | in every run, when every thread has unlocked what it locked both locks are free |
| `IfnetLocks.WriterExcludes` | include/net/if_var.h:783-791 | between IFNET_WLOCK and IFNET_WUNLOCK a thread excludes all other writers and both kinds of readers |
| `IfnetLocks.ReaderExcludesWriters` | include/net/if_var.h:804-807 | a reader of either kind excludes writers |
| `IfnetLocks.SomeoneCanGo` | include/net/if_var.h:783-807 | whenever some thread is inside a macro or a section, some such thread can step |
| `IfnetLocks.UnlockAlwaysHeld` | include/net/if_var.h:788-807 | an unlock, of either lock by either macro, never finds its lock free |
| `IfnetLocks.RunKeeps` | include/net/if_var.h:783-807 | in every run the lock words are the census of the threads |
| `PageMap.KvaddrIndices` | include/machine/pmap.h:103-108 | KVADDR is canonical and puts each index where the walk looks for it, the top one exactly for indices of the upper half |
| `PageMap.PtWindowReachesPte` | include/machine/pmap.h:173-173 | a walk of addr_PTmap + 8 * page number ends at the page-table entry of the address if and only if the entries above it are there to walk |
| `PageMap.PdWindowReachesPde` | include/machine/pmap.h:174-174 | the same one level up |
| `PageMap.PdpWindowReachesPdpe` | include/machine/pmap.h:175-175 | the same two levels up |
| `PageMap.Pml4WindowReachesPml4e` | include/machine/pmap.h:176-176 | three levels up, always |
| `PageMap.WindowsCompose` | include/machine/pmap.h:173-192 | the window of a window is the window one level up, ending in addr_PML4pml4e |
| `PageMap.StoreThroughWindow` | include/machine/pmap.h:173-192 | storing a present entry through the window remaps the address to the frame it names unless the entry is on its own walk; there a store that keeps the frame does so exactly if the large-page bit is clear, and one that sets that bit never does |
| `DirectMap.Slots` | include/machine/pmap.h:128-142 | DMPML4I is 512 - 2n, in the unsigned arithmetic of the header, for every power of two n up to 512 |
| `DirectMap.MapExactly` | include/machine/pmap.h:128-142 | among the powers of two up to 512 the map has n * NBPML4 bytes exactly for n <= 128, and has them and avoids the recursive slot exactly for n <= 64 |
| `DirectMap.EmptyMap` | include/machine/vmparam.h:168-169 | for 256 and 512 the map begins and ends at addr_PTmap |
| `DirectMap.InvertsExactly` | include/machine/vmparam.h:184-185 | PHYS_TO_DMAP sends all of [0, n * NBPML4) into the map and is undone by DMAP_TO_PHYS exactly for n <= 128 |
| `DirectMap.PhysToDmapInverts` | include/machine/vmparam.h:168-184 | for every power of two n up to 128 PHYS_TO_DMAP sends [0, n * NBPML4) into [DMAP_MIN_ADDRESS, DMAP_MAX_ADDRESS) and DMAP_TO_PHYS undoes it |
| `DirectMap.PhysToDmapAdds` | include/machine/vmparam.h:184-184 | the bitwise or is an addition |
| `DirectMap.DmapToPhysInverts` | include/machine/vmparam.h:185-185 | DMAP_TO_PHYS sends the direct map into physical memory and PHYS_TO_DMAP undoes it |
| `CpuSet.CpuSetT.IsSet` | include/sys/cpuset.h:42-42 | membership |
| `CpuSet.CpuSetT.Set` | include/sys/cpuset.h:43-43 | adds one CPU and changes no other |
| `CpuSet.CpuSetT.Clr` | include/sys/cpuset.h:40-40 | removes one CPU and changes no other |
| `CpuSet.CpuSetT.Copy` | include/sys/cpuset.h:41-41 | the copied set |
| `CpuSet.CpuSetT.Zero` | include/sys/cpuset.h:44-48 | the empty set |
| `CpuSet.CpuSetT.Fill` | include/sys/cpuset.h:50-54 | every CPU the words can hold |
| `CpuSet.CpuSetT.SetOf` | include/sys/cpuset.h:56-59 | the singleton |
| `CpuSet.CpuSetT.IsEmpty` | include/sys/cpuset.h:62-68 | true exactly for the empty set |
| `CpuSet.CpuSetT.IsFullSet` | include/sys/cpuset.h:71-77 | true exactly for the full set |
| `CpuSet.CpuSetT.Subset` | include/sys/cpuset.h:80-88 | true exactly if the second set is included in the first |
| `CpuSet.CpuSetT.Overlap` | include/sys/cpuset.h:91-98 | true exactly if the sets have a CPU in common |
| `CpuSet.CpuSetT.Cmp` | include/sys/cpuset.h:101-108 | 0 exactly for equal sets |
| `CpuSet.CpuSetT.OrWith` | include/sys/cpuset.h:110-114 | union, also with itself |
| `CpuSet.CpuSetT.AndWith` | include/sys/cpuset.h:116-120 | intersection, also with itself |
| `CpuSet.CpuSetT.NandWith` | include/sys/cpuset.h:122-126 | difference, also with itself |
| `CpuSet.CpuSetT.CopyStoreRel` | include/sys/cpuset.h:142-147 | the copied set, word by word |
| `CpuSet.EqualWords` | include/sys/cpuset.h:101-108 | two word arrays are equal exactly if they stand for the same set |
| `CpuSet.SubsetWords` | include/sys/cpuset.h:80-88 | the word-by-word test holds exactly for subsets |
| `CpuSet.DisjointWords` | include/sys/cpuset.h:91-98 | the word-by-word test holds exactly for disjoint sets |
| `CpuSetAtomic.HoldsWhatWasOffered` | include/sys/cpuset.h:131-140 | at every moment of every interleaving, for every CPU that no thread clears, the set holds it exactly if it did at the start or some thread has put it in so far |
| `CpuSetAtomic.EndsInUnion` | include/sys/cpuset.h:131-140 | with all threads of CPU_SET_ATOMIC and CPU_OR_ATOMIC done, the set is the union of the initial set and all sources |
| `CpuSetAtomic.EndsWithout` | include/sys/cpuset.h:128-129 | with all threads done, a CPU that some thread cleared and none offered is gone |
| `CpuSetAtomic.RewriteBit` | include/machine/atomic.h:291-292 | one atomic or, or and-not, on one word changes the membership of a CPU exactly as the operation says |
| `CpuSetAtomic.RunLength` | include/sys/cpuset.h:128-140 | every schedule takes exactly one step per word to be written, and finishes all threads exactly then |
| `StdioPut.DirectExactly` | include/stdio.h:451-453 | a direct store needs write mode, a buffer, room and, when line buffered, a byte other than newline; in a settled stream that is all it needs |
| `StdioPut.DirectKeeps` | include/stdio.h:85-95 | a direct store keeps the FILE invariants and commits its byte, and the decrement stays within an int |
| `StdioPut.RunSafe` | include/stdio.h:85-95 | no run of putc and getc, in either form, touches a byte outside the buffer, stores directly in read mode or unbuffered, or reads directly in write mode |
| `StdioPut.PutAgrees` | include/stdio.h:451-468 | the inline function and the macro agree on one call, up to a byte past the committed ones |
| `StdioPut.FormsAgree` | include/stdio.h:451-468 | over every run, with a library that may answer each call differently, they agree on _w, _p, the committed bytes, every returned value and when __swbuf is called |
| `StdioPut.StreamKept` | include/stdio.h:449-468 | a run without errors appends exactly the bytes it was given, in order, across buffer and file |
| `StdioPut.CallsExactly` | include/stdio.h:449-468 | the library is called exactly for a put that cannot be stored directly and for a get with nothing in the buffer |
| `StdioPut.PerformDelivers` | include/stdio.h:449-468 | one call without an error appends its byte, and a put returns it |
| `StdioPut.BufferReads` | include/stdio.h:449-449 | as long as the buffer lasts, getc returns its bytes one after the other and does not call the library |
| `StdioPut.BufferMoves` | include/stdio.h:449-449 | those calls advance _p and lower _r by one each and change nothing else |
| `StdioPut.InputKept` | include/stdio.h:449-449 | a run of getc without errors returns exactly the next bytes of the stream, in order, across buffer and file, and leaves the rest to be read |
| `StdioPut.ContractCanBeMet` | include/stdio.h:442-443 | the contract given to __swbuf and __srget can be met |
| `StdioPut.Stream.SputcInline` | include/stdio.h:451-456 | the inline function on the structure, inside the buffer |
| `StdioPut.Stream.SputcMacro` | include/stdio.h:461-468 | the macro on the structure, inside the buffer |
| `StdioPut.Stream.Sgetc` | include/stdio.h:449-449 | __sgetc on the structure, inside the buffer |
| `FpEnv.RunRefines` | include/fenv.h:92-191 | over every run of fesetround, feclearexcept on flags, fesetenv with agreeing environments and arithmetic, rounding fields and masks of the two units stay equal, and the pair behaves as one unit |
| `FpEnv.DoRefines` | include/fenv.h:92-191 | the same for one operation |
| `FpEnv.RoundIsLastSet` | include/fenv.h:136-171 | with no fesetenv on the way both units hold the last accepted mode (sections 7.6.3.1 and 7.6.3.2 of ISO/IEC 9899:1999) |
| `FpEnv.FlagsCleared` | include/fenv.h:92-108 | both paths of feclearexcept remove exactly the given flags from what fetestexcept sees (sections 7.6.2.1 and 7.6.2.5) |
| `FpEnv.SetRoundOnly` | include/fenv.h:151-171 | fesetround changes the two rounding fields and nothing else, and nothing at all when it rejects |
| `FpEnv.ClearOnly` | include/fenv.h:92-108 | feclearexcept leaves control and tag word, every bit of MXCSR outside its argument, and every bit of the status word outside it but for those that FNCLEX clears as well |
| `FpEnv.SetEnvRefines` | include/fenv.h:176-191 | after fesetenv rounding, flags and masks are those of the words of its argument, and the units agree exactly if these words do |
| `FpEnv.StrayClearRound` | include/fenv.h:97-106 | for any argument of feclearexcept the rounding fields stay equal if and only if the argument covers no set bit of the current mode, shifted to its SSE place |
| `FpEnv.StrayClearMasks` | include/fenv.h:97-106 | the same for the exception masks |
| `FpEnv.StrayClearExample` | include/fenv.h:104-106 | a concrete run in which the units fall out of step |
| `FpEnv.FpUnits.Feclearexcept` | include/fenv.h:92-108 | the control word survives the store and reload of the environment, although the store masks all exceptions |
| `FpEnv.FpUnits.Fetestexcept` | include/fenv.h:125-134 | the union of both units' flags, restricted to those asked for; bits asked for outside FE_ALL_EXCEPT come from the rest of the two words |
| `FpEnv.FpUnits.Fegetround` | include/fenv.h:136-149 | a valid mode, and the SSE unit's too if the units agree |
| `FpEnv.FpUnits.Fegetexcept` | include/fenv.h:200-212 | the complement of the masks |
| `FpEnv.FpUnits.Fesetround` | include/fenv.h:151-171 | rejects exactly the arguments with stray bits |
| `FpEnv.FpUnits.Fesetenv` | include/fenv.h:176-191 | each register holds its own word of the argument |
| `Bits.MaskWraps` | include/sys/buf_ring.h:95-95 | masking with size - 1 is reduction modulo size, for powers of two |

## Left out

- Weak memory: `wmb` and `rmb` have no meaning here, memory is sequentially consistent.
- `DEBUG_BUFRING` checks, prefetch, and `critical_enter`/`critical_exit`: diagnostics and hints.
- The body of `buf_ring_alloc` is not part of this model: the size, the mask and zero indices are assumed as stated above.
- `RingObject.BufRing.EnqueueBytes`: an uninterrupted call, so its wait for earlier enqueues, over at once, is elided; the waiting is in the protocol modules, and `RingSolo.EnqueueCall` ties the two.
- `RingObject.BufRing.DequeueMc`: likewise uninterrupted; the object returns no value for an empty ring where C returns NULL, which a stored NULL would look like too.
- `br_drops` and the interface byte counters under concurrency: plain unsynchronised statistics; `br_drops` is modelled in uninterrupted calls only, `if_obytes` not at all.
- ALTQ and the token bucket: taken as disabled.
- `IfqProtocol.RunKeeps`: packets are values there; that the lists hold them is proved for uninterrupted macros in `IfQueue`.
- The widths of ifq_len, ifq_drv_len and ifq_drops: unbounded here, the limit keeps the first small.
- `IfnetLocks.RunKeeps`: threads do not nest the macros, so the RECURSE flags do not matter; queueing policy and priorities of the locks are not modelled, hence no fairness.
- drbr_free, drbr_dequeue, drbr_empty, drbr_needs_enqueue and drbr_inuse: renamings of modelled calls.
- `vtopte`: its body is not shown; the window addresses stand in for it.
- `PageMap.StoreThroughWindow`: for an entry on its own walk a store that names another frame and no large page is not decided, since what it reaches depends on the contents of that frame; the TLB is not modelled.
- UVADDR, the pte_ accessors and the remaining address constants: fixed-width identities.
- CPU_COPY_STORE_REL under concurrency: a reader may see a mixture of words, about which the header promises nothing.
- `__swbuf` and `__srget`: bodies not shown; they are functions constrained by a contract.
- `StdioPut.StreamKept`: says nothing about a run in which a call reports an error; ungetc and its buffer are not modelled.
- `StdioPut.InputKept`: speaks of runs of getc only, since the standard wants a positioning call between reading and writing.
- `FpEnv.FpUnits.Feclearexcept`: the exception-summary and busy bits are ordinary bits, not recomputed on a load; the register stack and the last-instruction fields of fenv_t are not modelled.
- fegetenv, feholdexcept, feupdateenv, fesetexceptflag, feraiseexcept, feenableexcept, fedisableexcept: prototypes only; fegetexceptflag reads what fetestexcept reads.
- The system-call and library prototypes, constant tables, byte-order macros and assembly wrappers of the other headers.
