# RhinOS kernel model

A Dafny model of four cores of the RhinOS kernel, with proofs about every reachable
state: rendezvous IPC with its scheduler, the slab allocator over the page pool, the
memory map sanitizer, and two-level paging through a self-mapped directory. The list
macros and the process table they share are modelled too.

Each core has two layers. A specification of functions on a state value says what a call
does, and lemmas prove what holds over all runs of it and, for each call, the whole state
it leaves, down to registers, list order and single words of memory. Classes with fields, arrays and
loops, in the form of the C code, are proved equal to those functions call by call.

| files | what they hold |
|---|---|
| `Machine.dfy` | word and page sizes |
| `Llist.dfy`, `SeqLists.dfy`, `SchedQueues.dfy` | circular lists on the heap, the sequences they stand for, and the scheduler's queues as such lists |
| `IpcState.dfy` | threads, queues, wait lists; send, receive, notify, election as functions |
| `IpcInvariant.dfy`, `IpcGraph.dfy`, `IpcRuns.dfy` | the invariant, the graph of queued senders, runs |
| `IpcMessages.dfy`, `IpcViews.dfy` | what was accepted, delivered and is still waiting, per process |
| `IpcEffects.dfy` | the whole state each system call leaves; what a program finds in its registers when it runs again |
| `ClientServer.dfy`, `RoundRobin.dfy`, `ClientProgress.dfy` | the server and client programs; the scheduling bound; how long a request waits |
| `IpcKernel.dfy` | the system calls in place, on thread and process objects |
| `IpcWitnesses.dfy` | runs from the start into the cases the exact conditions shut out |
| `PagePool.dfy`, `SlabState.dfy`, `SlabInvariant.dfy`, `SlabRuns.dfy`, `SlabEffects.dfy`, `SlabAllocator.dfy` | page stack and slab allocator |
| `E820Sort.dfy`, `E820Tree.dfy`, `E820.dfy` | sort, interval tree, and the sanitizer in place |
| `Paging.dfy`, `PagingRuns.dfy`, `PagingUnit.dfy` | the MMU walk, address spaces over runs, the code in place |
| `ProcTable.dfy` | the process hash table |

`dafny verify dfyconfig.toml` checks everything.

Steps are atomic, as in the kernel, whose system call gate keeps interrupts off. Words are
unbounded integers with the reduction written out where the code relies on it: pids, the
last address of an entry, truncated lengths, byte-wide indices.

## Where the code does less than its comments say

- A process that sends to itself is not refused: the deadlock search follows paths of one
  edge or more out of the target. `IpcRuns.SendAcyclic` gives the exact condition under
  which the graph of senders stays acyclic, `IpcWitnesses.SelfSendHappens` a run from the
  start into the other case.
- `syscall_notify` accepts a thread that is still queued, and unlinks it as if it were
  blocked. `IpcRuns.NotifyExact` says when the invariant survives, `Llist.WakeQueued` what
  happens to the lists, `IpcWitnesses.EarlyNotifyHappens` how three steps lead there. Where
  it survives, the message of the notified thread is lost: `IpcMessages.RunConserves`.
- `vm_cache_grow` threads one block less than the counter says when the stride divides the
  room of a page, and none for objects that do not fit a page with their control block. So
  sizes 2027 and 4066 and more fail: `SlabInvariant.ExactSizes`, `SlabRuns.InexactRunsDry`.
- `vm_cache_free` accepts a buffer that is free already: `SlabRuns.FreeExact`,
  `SlabRuns.DoubleFreeHappens`. Its block is then added to a ring it is still on, which
  cuts the ring off behind it: `Llist.List.Add`, `Llist.CutOff`.
- `e820_qsort` never sorts two entries, so an available range may hide a reserved one:
  `E820Tree.GreatestWinsExactly`, `E820.HidesReserved`. It passes `n - 1` as an unsigned
  byte, which wraps when a pivot goes to place 0: `E820Sort.QSort`, `E820Sort.SortWraps`.
- An empty entry at address 0 takes the whole address space: `E820Tree.EmptyEntryTakesAll`.
  Truncation at 4 GB misses available memory that runs to the end of the address space and
  takes the last byte below 4 GB: `E820.CutExact`, `E820.WrapEscapes`.
- `vm_paging_map` uses the physical address of a table as a pointer (vm_paging.c:333). The
  kernel's first tables are mapped where they are, a table that a fault above 256 MB has
  added to the kernel's directory only if its frame was: `PagingRuns.FaultTableSeen`,
  `PagingUnit.KernelSees`.
- An empty map makes `e820_setup` sort with a last index of 255, beyond its 128 entries
  (e820.c:232).
- `proc_create` tests for page 0 where the pool answers 1: `ProcTable.Table.Create`.
- A pid can be 0, which means "any", once the counter has wrapped: `ProcTable.AnyOnlyOnWrap`.
  Two processes have the same pid exactly if they are a multiple of 2^32 creations apart,
  and the look-up then finds one of them: `ProcTable.SamePid`,
  `ProcTable.Table.NamesExactly`, `ProcTable.SharedPid`.

## Model

| member | source | states |
|---|---|---|
| SeqLists.RemoveAt | include/llist.h:137-152 | removing a member leaves what is before it and what is after it, in order |
| SeqLists.FirstFound | kern/syscall.c:487-512 | a search that stops at the first match returns it |
| Llist.RingUnique | include/llist.h:71-84 | a head pointer determines the sequence of a well-formed ring |
| Llist.Rotated | include/llist.h:71-84 | read from any of its nodes, a ring is the same sequence rotated |
| Llist.List.Add | include/llist.h:110-125 | on a ring of any length, empty or not, a new node is appended, and only the two ends of the list and the node are written; a node that is on the list already cuts it off behind itself |
| Llist.CutOff | include/llist.h:110-125 | after that no reading from the head is a ring, unless the node was the head, which is then a ring of its own |
| Llist.List.Remove | include/llist.h:137-152 | exactly the node leaves the ring it is on, order kept; the given head moves only if it was that node, and becomes null for the last one |
| Llist.List.Merge | include/llist.h:192-197 | two disjoint rings become one that reads as the concatenation from either head |
| Llist.WakeQueued | kern/syscall.c:396-421 | unlinking a queued thread through the blocked list: a middle node leaves its wait list, the first one leaves that list pointing into the ready ring |
| SchedQueues.Sched.Elect | kern/sched.c:186-221 | on the rings themselves: the walks end, the head of the ready queue goes to its end and is returned |
| SchedQueues.Sched.HandOver | kern/syscall.c:253-268 | the dequeues and enqueues of a delivery leave rings that read as the specified queues |
| SchedQueues.Sched.JoinWaitList | kern/syscall.c:270-283 | so do those of a send that waits, wait list included |
| SchedQueues.Sched.LeaveWaitList | kern/syscall.c:337-352 | of a receive that serves a waiting sender |
| SchedQueues.Sched.Suspend | kern/syscall.c:354-377 | of a receive that blocks |
| SchedQueues.Sched.Resume | kern/syscall.c:403-416 | of a notify |
| SchedQueues.Sched.ResumeQueued | kern/syscall.c:403-416 | and of a notify of a thread that is still queued |
| IpcInvariant.ElectKeeps | kern/sched.c:186-221 | an election keeps the whole invariant, and there is always a thread to elect |
| IpcInvariant.DeliverKeeps | kern/syscall.c:245-268 | handing over a message keeps every thread in the one list its state says, and misses no rendezvous |
| IpcInvariant.EnqueueKeeps | kern/syscall.c:270-283 | so does joining a wait list, if no thread of the target was ready to receive |
| IpcInvariant.TakeKeeps | kern/syscall.c:329-352 | and taking the message of a waiting sender |
| IpcInvariant.AwaitKeeps | kern/syscall.c:354-377 | and blocking to receive, if no matching sender waits |
| IpcInvariant.WakeKeeps | kern/syscall.c:403-416 | and waking a sender that is in the blocked queue |
| IpcGraph.ReachesUnfold | kern/syscall.c:437-473 | reachability is one edge, or an edge and then reachability: what the recursion explores |
| IpcGraph.EdgeShrinks | kern/syscall.c:437-473 | on an acyclic graph each recursive call reaches strictly fewer processes, so the search terminates |
| IpcGraph.QueuedSendAcyclic | kern/syscall.c:232-243 | an added sender edge keeps the graph acyclic if and only if it is no self-loop and closes no chain |
| IpcRuns.SendKeeps | kern/syscall.c:220-302 | every send, refused, delivered or queued, keeps the invariant |
| IpcRuns.ReceiveKeeps | kern/syscall.c:319-382 | every receive keeps the invariant |
| IpcRuns.NotifyExact | kern/syscall.c:396-421 | notify keeps the invariant if and only if the selected thread is not at the head of the caller's wait list |
| IpcWitnesses.EarlyNotifyHappens | kern/syscall.c:396-421 | a run of two ticks and a send from the start reaches a notify after which the invariant fails |
| IpcRuns.HandleKeeps | kern/syscall.c:120-197 | the whole system call handler keeps the invariant, for every number and destination, with that one proviso |
| IpcRuns.SendAcyclic | kern/syscall.c:232-283 | after a send the graph of queued senders is acyclic if and only if the caller was not queued on its own process |
| IpcWitnesses.SelfSendHappens | kern/syscall.c:232-283 | two clock ticks from the start are a run, to a state where a call may queue a process on itself; the graph is then cyclic |
| IpcRuns.HandleAcyclic | kern/syscall.c:120-197 | no other system call can close a chain of senders |
| IpcRuns.StepSafe | kern/syscall.c:120-197 | one step, call or clock tick, keeps the invariant and acyclicity; only a notify of the head of the caller's wait list and a send queued on the caller's own process are shut out |
| IpcRuns.InitialSafe | kern/thread.c:81-111 | the state the setup leaves satisfies both |
| IpcRuns.RunSafe | kern/syscall.c:220-421 | so every reachable state does |
| IpcRuns.FollowsIsRun | kern/syscall.c:120-197 | a sequence of allowed calls never leaves the states in which calls are defined |
| IpcRuns.Partition | kern/sched.c:87-173 | in every reachable state each thread is in exactly one list, once: ready iff its state is ready, the wait list of P iff it is blocked and sending to P, the blocked queue iff it is blocked and not sending; the current thread is ready |
| IpcRuns.NeverMissed | kern/syscall.c:487-558 | in no reachable state does a thread wait to send to a process of which one thread would take its message |
| IpcMessages.SendDelivers | kern/syscall.c:245-268 | a send with a receiver gives it the sender's pid and words as they were at the call, and nobody else anything |
| IpcMessages.SendQueues | kern/syscall.c:270-283 | otherwise the message is last among those in flight to the target |
| IpcMessages.ReceiveServes | kern/syscall.c:329-352 | a receive takes the first matching message in flight, unchanged, and leaves the rest in order |
| IpcMessages.NotifyDrops | kern/syscall.c:396-421 | a queued sender that is notified leaves the wait list with its message, all others stay, and nobody receives it |
| IpcMessages.StepMoves | kern/syscall.c:120-197 | what any step does to the messages of one process: nothing, append, take one, deliver directly, or lose one to a notify of a queued sender |
| IpcMessages.RunConserves | kern/syscall.c:612-621 | over every run and for every process: accepted messages are the delivered ones, those lost to a notify of a queued sender, and those waiting, unchanged; without such a notify none is lost |
| IpcMessages.RunInOrder | kern/syscall.c:526-558 | a process that receives from anyone, and notifies no queued sender, gets its messages in the order they were accepted |
| IpcViews.SendView | kern/syscall.c:220-302 | the fields a send changes, seen from the caller and its target, return code included |
| IpcViews.ReceiveView | kern/syscall.c:319-382 | the same for a receive |
| IpcViews.NotifyView | kern/syscall.c:396-421 | the same for a notify, whether the thread it wakes was blocked or still queued |
| IpcEffects.SendEffect | kern/syscall.c:220-302 | everything an accepted send leaves: the first thread of the target that accepts the caller gets pid and words, and no other register; or the caller is last in the wait list; all queues and all other threads as stated |
| IpcEffects.ReceiveEffect | kern/syscall.c:319-382 | everything a receive leaves: the first matching waiting thread's message and its place in the queues, or the blocked caller |
| IpcEffects.NotifyEffect | kern/syscall.c:396-421 | everything a notify leaves: the first thread that waits for the caller is ready and in no other queue, or nothing but the caller's registers has changed |
| IpcEffects.RefusedEffect | kern/syscall.c:120-197 | a call to an unknown process, with an unknown number, to nobody, or that would close a chain changes the caller's registers only |
| IpcEffects.CallEffect | kern/syscall.c:120-197 | these are all the cases there are |
| IpcEffects.TickEffect | kern/clock.c:96-117 | a clock interrupt passes the processor on and changes nothing else |
| IpcEffects.ResultStays | kern/syscall.c:188-196 | over every run, what a thread finds in EAX when it runs again is the result of its own last call, also if it was blocked and others delivered to it meanwhile |
| IpcEffects.RegistersStay | kern/syscall.c:612-621 | over every run, the registers of a thread that does not wait for a message stay until it runs: a delivered message is found as it was delivered |
| ClientServer.ClientSends | lib/ipc/ipc.s:168-180 | the request of a client is accepted and keeps the protocol state |
| ClientServer.ClientCollects | lib/ipc/ipc.s:181-186 | so does its wait for the reply |
| ClientServer.ClientThanks | lib/ipc/ipc.s:187-193 | its notify never selects a queued thread and returns success, so the loop around ipc_sendrec goes on |
| ClientServer.ServerReceives | srv/user_recv.c:33 | the server's receive keeps the protocol state |
| ClientServer.ServerAcknowledges | srv/user_recv.c:49 | its notify releases exactly the client it serves |
| ClientServer.ServerReplies | srv/user_recv.c:50 | its reply is never refused as a deadlock |
| ClientServer.NextGood | srv/user_recv.c:33-51 | every step of server, clients and clock keeps the protocol state |
| ClientServer.StartExists | srv/user_send.c:26-35 | there is a start state for any number of clients, so the results below are about something |
| ClientServer.NeverRefused | srv/user_send.c:36-49 | in every reachable state every call is one the kernel serves; whoever runs finds in EAX that its last call succeeded, also after it was blocked, so neither loop ends |
| ClientServer.NeverAllBlocked | srv/user_recv.c:33-51 | in no reachable state are the server and all clients blocked, for any number of clients and any interleaving |
| ClientServer.OneReplyEach | srv/user_recv.c:33-51 | each client was answered exactly once for each request the server took, except the one being served |
| RoundRobin.StepAdvances | kern/sched.c:186-221 | an election brings a thread that stays ready one place closer, and nothing else moves it back |
| RoundRobin.Elected | kern/sched.c:186-221 | a thread that stays ready at place p is elected within p + 1 elections, whatever the others do |
| ClientProgress.WorkerReady | srv/user_recv.c:33-51 | while a client waits for its reply, the server or the one client it serves is ready |
| ClientProgress.CallNearer | srv/user_recv.c:33-51 | each call of those two brings the reply nearer, and no call of any other client sets it back |
| ClientProgress.RankBound | srv/user_recv.c:33-51 | five such calls for each client are enough |
| ClientProgress.AskingEnds | srv/user_send.c:36-49 | the wait ends in the very step that gives the client exactly one more reply |
| ClientProgress.RequestAnswered | kern/sched.c:186-221 | if no program is elected more than m times on end without making a call, every request is answered within 5n((m + 1)t + 1) + (m + 1)t + 1 elections, for n clients and t threads, whatever the interleaving |
| ClientProgress.PromptFair | kern/clock.c:96-117 | a run in which each elected program calls before the next tick meets this for m = 1 |
| ClientProgress.FairRunExists | srv/user_send.c:26-35 | there are such runs of any length, from any start |
| IpcKernel.Kernel.FindReceiver | kern/syscall.c:487-512 | the loop returns the first thread of the target that accepts the sender, or null |
| IpcKernel.Kernel.FindWaitingSender | kern/syscall.c:526-558 | the first waiting sender that matches, or null |
| IpcKernel.Kernel.FindBlockedSender | kern/syscall.c:572-598 | the first blocked thread that awaits the notifier, queued ones included |
| IpcKernel.Kernel.Deadlock | kern/syscall.c:437-473 | on an acyclic graph the recursion ends, and answers failure if and only if the sender's process is reachable from the target |
| IpcKernel.Kernel.SchedElect | kern/sched.c:186-221 | the head of the ready queue goes to its end and is returned |
| IpcKernel.Kernel.DeliverTo | kern/syscall.c:245-268 | the field and queue updates of a delivery are the specified one |
| IpcKernel.Kernel.JoinWaitList | kern/syscall.c:270-283 | those of queueing |
| IpcKernel.Kernel.TakeFrom | kern/syscall.c:337-352 | those of serving a waiting sender |
| IpcKernel.Kernel.AwaitSender | kern/syscall.c:354-377 | those of blocking to receive |
| IpcKernel.Kernel.WakeUp | kern/syscall.c:403-416 | those of waking |
| IpcKernel.Kernel.Send | kern/syscall.c:220-302 | the new state and the result are those of the specified send |
| IpcKernel.Kernel.Receive | kern/syscall.c:319-382 | those of the specified receive |
| IpcKernel.Kernel.Notify | kern/syscall.c:396-421 | those of the specified notify, for threads that are still queued too |
| IpcKernel.Kernel.SyscallHandle | kern/syscall.c:120-197 | those of the specified handler, result register included |
| IpcKernel.Kernel.ClockHandler | kern/clock.c:96-117 | the interrupt handler is one election |
| IpcKernel.Boot | kern/proc.c:204-268 | threads and processes can be put together so that the kernel is valid and its abstract state an initial one |
| PagePool.PagePool.Alloc | kern/vm_pool.c:142-150 | the next page of the stack, but never the last one |
| PagePool.PagePool.Free | kern/vm_pool.c:164-174 | an aligned page is stored if there is room, and nothing changes otherwise |
| PagePool.PagePool.Setup | kern/vm_pool.c:92-126 | every page below 256 MB outside the reserved ranges is in the pool, greatest first, so page 0 last |
| SlabInvariant.ExactSizes | kern/vm_slab.c:437-460 | for every object size: counter and threaded blocks agree, with at least one block, if and only if the size is less than 4066 and not 2027 |
| SlabInvariant.CountersAgree | kern/vm_slab.c:437-460 | for every stride that fits the room of a page: they agree if and only if the stride does not divide 4078 |
| SlabInvariant.ChunkInPage | kern/vm_slab.c:300-303 | every block lies in its page behind the header, and aligning any address of it down gives the header |
| SlabInvariant.ChunksApart | kern/vm_slab.c:449-460 | blocks of one page do not overlap |
| SlabInvariant.FreeSlabEmpty | kern/vm_slab.c:373-383 | a slab on the free list has no live object |
| SlabInvariant.GrowKeeps | kern/vm_slab.c:419-463 | a new slab keeps the invariant |
| SlabInvariant.ReleaseKeeps | kern/vm_slab.c:373-383 | returning a free slab's page keeps it |
| SlabRuns.AllocateKeeps | kern/vm_slab.c:223-274 | allocation fails only when lists and pool are empty; otherwise one object that was not live becomes live, and no other |
| SlabRuns.GiveBackKeeps | kern/vm_slab.c:294-342 | a live object is accepted by its own cache and by no other, and then is the only one to die |
| SlabRuns.FreeExact | kern/vm_slab.c:294-342 | a buffer in the page of a slab is taken back if and only if the cache is the slab's, and then the invariant survives if and only if the buffer is live, and no cache itself |
| SlabRuns.DoubleFreeHappens | kern/vm_slab.c:294-342 | from every start: creating a cache, allocating, freeing, and freeing again, which is accepted and breaks the invariant |
| SlabRuns.CreateKeeps | kern/vm_slab.c:172-204 | a new cache of any object size is a live object of the cache of caches, with nothing live of its own |
| SlabRuns.DestroyKeeps | kern/vm_slab.c:360-400 | a cache can be destroyed if and only if nothing of it is live, and then only its own object dies |
| SlabRuns.RunKeeps | kern/vm_slab.c:223-400 | over every run: counters equal list lengths, slabs are on the list their counter says, and the pages of pool and slabs together never change |
| SlabRuns.InitialInv | kern/vm_slab.c:149-156 | this holds after setup, with nothing live |
| SlabRuns.LiveApart | kern/vm_slab.c:449-460 | live objects never overlap, whatever caches they are from |
| SlabRuns.LiveOffMetadata | kern/vm_slab.c:433-460 | nor does any of them overlap a control block or a slab header |
| SlabRuns.PageZeroStays | kern/vm_pool.c:142-150 | page 0 never becomes a slab |
| SlabRuns.InexactRunsDry | kern/vm_slab.c:437-460 | for every inexact size an allocation from the new slab, the second for size 2027, finds an empty block list |
| SlabEffects.AllocateEffect | kern/vm_slab.c:223-274 | the object is the first free block of the first partial slab, else of the first free one, else of a new one; only then a page leaves the pool; blocks, counters and the order of all lists as stated |
| SlabEffects.GrowEffect | kern/vm_slab.c:419-463 | for every object size the first page of the pool becomes the last free slab, with its blocks in ascending order and the counter of the code |
| SlabEffects.FreeEffect | kern/vm_slab.c:294-342 | any buffer of a slab goes behind the free blocks, or cuts them off if it is one; the slab is filed at the end of its new list, no page moves |
| SlabEffects.CreateEffect | kern/vm_slab.c:172-204 | a new cache is empty, last in the list of caches, and its record an object allocated as above |
| SlabEffects.DestroyEffect | kern/vm_slab.c:360-400 | fails, without effect, if and only if a slab is partial or full; otherwise the pages of the free slabs are on the stack, last one on top, and the record is freed as above |
| SlabAllocator.Allocator.GrowCache | kern/vm_slab.c:419-463 | the loop threads exactly the specified blocks and sets the specified counter, for exact and inexact sizes alike |
| SlabAllocator.BoundWraps | kern/vm_slab.c:449 | the 32-bit loop bound wraps, and would thread blocks of a size that has none, if and only if the stride exceeds the end of the page |
| SlabAllocator.Allocator.Alloc | kern/vm_slab.c:223-274 | the updates in place are the specified allocation |
| SlabAllocator.Allocator.FreeObject | kern/vm_slab.c:294-342 | for any buffer in the page of a slab, live or not, the branches on the counter do what is specified |
| SlabAllocator.Allocator.CreateCache | kern/vm_slab.c:172-204 | creation as specified |
| SlabAllocator.Allocator.ReleaseSlabs | kern/vm_slab.c:373-383 | the loop returns every free slab, and the pool accepts each page |
| SlabAllocator.Allocator.DestroyCache | kern/vm_slab.c:360-400 | destruction as specified |
| E820Sort.XorCancels | kern/arch/x86/e820.c:68-71 | XOR with either operand gives back the other |
| E820Sort.SwapField | kern/arch/x86/e820.c:68-71 | three XORs exchange a field of two entries, and erase it if they are the same one |
| E820Sort.Swap | kern/arch/x86/e820.c:307-310 | two entries are exchanged, one and the same entry is zeroed |
| E820Sort.ScanUp | kern/arch/x86/e820.c:292-295 | the first entry below the pivot |
| E820Sort.ScanDown | kern/arch/x86/e820.c:299-302 | the last entry not below the pivot |
| E820Sort.Partition | kern/arch/x86/e820.c:279-331 | terminates; permutes its range; the pivot goes to the returned place with no smaller type before and only smaller ones after; to the very start if and only if its type is strictly greatest; the scans exchange exactly the outermost misplaced pairs |
| E820Sort.RepeatedLeft | kern/arch/x86/e820.c:348-357 | a greatest type that occurs twice stays so on the left of the pivot |
| E820Sort.DescendingStays | kern/arch/x86/e820.c:348-357 | a map in descending order stays as it is |
| E820Sort.QSort | kern/arch/x86/e820.c:348-357 | a permutation in which entries two or more apart are in order, and two entries stay as they are; the same as exchanging the outermost misplaced pairs inwards and sorting both sides; a byte-wide index wraps if and only if on the way down the left sides a pivot goes to place 0, never if the greatest type is repeated |
| E820Sort.SortWraps | kern/arch/x86/e820.c:348-357 | they do wrap for three entries of types 1, 1 and 2 |
| E820Tree.SearchComplete | kern/arch/x86/e820.c:370-409 | in an ordered tree the search finds the only node that covers an address |
| E820Tree.InsertWithin | kern/arch/x86/e820.c:370-409 | insertion keeps the tree ordered and disjoint, empty intervals included |
| E820Tree.InsertTypeAt | kern/arch/x86/e820.c:370-409 | exactly the uncovered addresses of the interval get its type |
| E820Tree.InsertWeight | kern/arch/x86/e820.c:370-409 | an insertion adds at most two to nodes plus gaps, less for each edge it fills |
| E820Tree.UpperExact | kern/arch/x86/e820.c:237 | the 64-bit last address is the entry's own if and only if the entry ends in the address space and is not the empty one at 0 |
| E820Tree.EmptyEntryTakesAll | kern/arch/x86/e820.c:237 | that empty entry gives its type to every address |
| E820Tree.OneEntryExact | kern/arch/x86/e820.c:237 | the tree of one entry answers right at every address if and only if the entry fits the address space |
| E820Tree.BuildTypeAt | kern/arch/x86/e820.c:235-241 | every address has the type of the first inserted entry that covers it, or none |
| E820Tree.BuildCount | kern/arch/x86/e820.c:476-485 | n entries make at most 2n - 1 nodes |
| E820Tree.GreatestWinsExactly | kern/arch/x86/e820.c:231-241 | after the sort every address gets its greatest type if and only if each pair of neighbours in the wrong order overlaps only where an earlier entry covers |
| E820Tree.ApartGreatest | kern/arch/x86/e820.c:231-241 | in particular if entries of different types do not overlap in the unsorted map, whatever order the sort leaves |
| E820Tree.AvailableHidesReserved | kern/arch/x86/e820.c:348-357 | two entries in sorted order for which it does not |
| E820Tree.FlattenAscending | kern/arch/x86/e820.c:444-462 | the flat map ascends and is disjoint |
| E820Tree.FlattenTypeAt | kern/arch/x86/e820.c:444-462 | and gives every address the type the tree gives it |
| E820.Unaffected | kern/arch/x86/e820.c:142 | a tree depends on the pool cells of its own nodes only |
| E820.CountBound | kern/arch/x86/e820.c:421-429 | a tree has no more nodes than the pool handed out |
| E820.Pool.Alloc | kern/arch/x86/e820.c:476-485 | the next of 128 nodes, or none |
| E820.Pool.Insert | kern/arch/x86/e820.c:370-409 | in place: the specified insertion, touching only the tree's nodes and new ones; fails if and only if the pool is too small |
| E820.Pool.CountAt | kern/arch/x86/e820.c:421-429 | the byte-wide count is the number of nodes |
| E820.Pool.Convert | kern/arch/x86/e820.c:444-462 | exactly the cells from the index on, as many as nodes, get the nodes in order; sizes and all other cells stay |
| E820.BuildTree | kern/arch/x86/e820.c:235-241 | the loop builds the tree of the entries, or fails if and only if it has more than 128 nodes |
| E820.CutExact | kern/arch/x86/e820.c:505-521 | truncation leaves available exactly what was so below 4 GB less one byte, if and only if the entry is not one whose end wraps to 0 |
| E820.WrapEscapes | kern/arch/x86/e820.c:505-521 | such an entry leaves addresses above 4 GB available |
| E820.CutMap | kern/arch/x86/e820.c:498-524 | the same for the lookups in a whole map |
| E820.CutTruncates | kern/arch/x86/e820.c:498-524 | for entries of every type and at every address: what is not available stays; available memory of an entry from 4 GB on is reserved, of one that starts below it is kept up to the last byte below 4 GB and gone from there on, unless its end wrapped |
| E820.Truncate | kern/arch/x86/e820.c:498-524 | every entry is cut, in place |
| E820.Sanitize | kern/arch/x86/e820.c:231-251 | sort, tree and flattening together: an ascending disjoint map that answers like the first cover of the sorted entries, and with the greatest type of the given ones if different types do not overlap; never fails for up to 64 entries; `size` fields and all behind the map are kept |
| E820.HidesReserved | kern/arch/x86/e820.c:231-251 | a map of two entries for which an available range hides a reserved one |
| E820.Setup | kern/arch/x86/e820.c:160-260 | the final map ascends and is disjoint; at every address that is not available, and at every one below the last byte under 4 GB, it answers like the first cover of the sorted entries, and at the others like the truncated flat map; if different types do not overlap, available memory is that of the given entries |
| Paging.SelfMapDirectory | kern/arch/x86/vm_paging.c:168-169 | under the walk of the MMU the macro address is the current directory |
| Paging.SelfMapTable | kern/arch/x86/vm_paging.c:182-183 | and the other one the table of an entry, if there is one |
| Paging.KernelShared | kern/arch/x86/vm_paging.c:479-483 | every synced space translates addresses below 256 MB as the kernel does |
| Paging.TableWrite | kern/arch/x86/vm_paging.c:341-345 | writing a table entry changes that one page, in one space or, for a kernel table, in all, and keeps the invariant |
| Paging.NewTableKeeps | kern/arch/x86/vm_paging.c:594-606 | a cleared fresh table changes no translation outside the self-map window |
| Paging.SyncKeeps | kern/arch/x86/vm_paging.c:464-493 | a new space joins the invariant and changes no other space |
| Paging.SyncWalk | kern/arch/x86/vm_paging.c:464-493 | it maps what the kernel maps below 256 MB, and outside its window nothing else; no other frame is written |
| Paging.FreshWrite | kern/arch/x86/vm_paging.c:477 | writing a frame that is no directory and no table is invisible |
| Paging.MapWalk | kern/arch/x86/vm_paging.c:310-348 | mapping succeeds if and only if the table exists and the page was unmapped, and then adds that page in every space that shares it, by writing one word |
| Paging.UnmapWalk | kern/arch/x86/vm_paging.c:363-397 | unmapping succeeds if and only if the page was mapped, and removes it alone, by writing one word |
| Paging.ClassExact | kern/arch/x86/vm_paging.c:507-561 | the class of a fault in terms of the walk: unresolvable if and only if it is no missing page or in the self-map window |
| Paging.FixExact | kern/arch/x86/vm_paging.c:576-625 | for every flag: when the fix succeeds, and the only words it then writes |
| Paging.RefusedFault | kern/arch/x86/exceptions.c:54-64 | a protection fault, one in the window and one on a mapped page change nothing at all |
| Paging.ExternalWalk | kern/arch/x86/vm_paging.c:610-620 | if the table is there and the page is not, the page is mapped to the frame, and no other, by writing one word |
| Paging.InternalWalk | kern/arch/x86/vm_paging.c:594-606 | if the table is missing, a cleared one is added, which maps nothing yet; no other frame is written |
| Paging.TwoRounds | kern/arch/x86/vm_paging.c:507-625 | any unmapped address outside the window is mapped after at most two rounds, all other pages unchanged |
| PagingRuns.StepSafe | kern/arch/x86/vm_paging.c:310-625 | map, unmap, sync, switch and page fault keep the invariant in every space, whether they succeed or fail; only a mapping whose table is not seen is shut out |
| PagingRuns.KernelTableSeen | kern/arch/x86/vm_paging.c:333 | the table of a page below 256 MB is seen in every safe state |
| PagingRuns.FaultTableSeen | kern/arch/x86/vm_paging.c:594-606 | a table that a fault adds to the kernel's directory is seen if and only if its frame was mapped where it is |
| PagingRuns.RunShares | kern/arch/x86/vm_paging.c:221-224 | over every run all spaces agree with the kernel's below 256 MB, and the kernel tables are mapped where they are |
| PagingRuns.RefusedStep | kern/arch/x86/exceptions.c:54-64 | such a fault as a step of a run leaves every space as it is |
| PagingRuns.PlaceStays | kern/arch/x86/vm_paging.c:310-625 | over every run, what is mapped in a space stays where it is until its page is unmapped, and what is not stays so until its page is mapped or faults |
| PagingUnit.WindowOpens | kern/arch/x86/vm_paging.c:594-603 | the window of an entry just written is the new table, and stays so while it is cleared |
| PagingUnit.Unit.ClearPage | kern/arch/x86/vm_paging.c:603 | the loop clears the frame behind the page, and nothing else |
| PagingUnit.Unit.MapPage | kern/arch/x86/vm_paging.c:310-348 | the accesses through the translation do the specified mapping |
| PagingUnit.Unit.UnmapPage | kern/arch/x86/vm_paging.c:363-397 | the specified unmapping |
| PagingUnit.KernelSees | kern/arch/x86/vm_paging.c:333 | in every safe state using the physical address of a page's table as a pointer is sound if and only if the table is mapped where it is |
| PagingUnit.Unit.ToPhys | kern/arch/x86/vm_paging.c:640-673 | the walk in software is the walk of the MMU, with 0 for no mapping |
| PagingUnit.Unit.Resolvable | kern/arch/x86/vm_paging.c:507-561 | the classification through the self map is that of the physical tables |
| PagingUnit.Unit.FixFault | kern/arch/x86/vm_paging.c:576-625 | the fix through the self map, clearing included, is the specified one |
| PagingUnit.Unit.PageFault | kern/arch/x86/exceptions.c:54-64 | the handler classifies and fixes; it changes nothing in the window and under a mapped address, writes one word if only the page is missing, and adds a cleared table if that is |
| PagingUnit.Unit.SyncSpace | kern/arch/x86/vm_paging.c:464-493 | the new space maps what the kernel maps below 256 MB, its window, and nothing else; no other frame is written; null is refused |
| PagingUnit.Unit.SwitchTo | kern/arch/x86/vm_paging.c:430-447 | the space behind the page becomes current, unless it is unmapped or at physical 0 |
| PagingUnit.Unit.Setup | kern/arch/x86/vm_paging.c:230-293 | succeeds if and only if the new limit is at most 256 MB; then the invariant holds and, outside the self-map window, exactly the pages from the kernel to the limit are mapped, each to itself; no frame but the directory and its tables is written |
| ProcTable.AnyOnlyOnWrap | kern/proc.c:251 | pid 0 is given exactly when the counter has wrapped |
| ProcTable.SamePid | kern/proc.c:251 | two creations give the same pid if and only if they are a multiple of 2^32 apart |
| ProcTable.Table.NamesExactly | kern/proc.c:470-499 | a pid names one live process if and only if no other live one is a multiple of 2^32 creations away |
| ProcTable.SharedPid | kern/proc.c:204-323 | from any table, 2^32 creations lead to two live processes with one pid |
| ProcTable.Table.Unique | kern/proc.c:470-499 | as long as no live process is 2^32 creations old, every pid names one |
| ProcTable.Table.Lookup | kern/proc.c:470-499 | the oldest process with the pid, null if and only if there is none; it is the only one exactly under the condition above |
| ProcTable.Table.Create | kern/proc.c:204-268 | the new process gets the next pid, a page no other process has and no threads, and joins its bucket; a failure changes no process and no page; the table can always be called again |
| ProcTable.Table.Destroy | kern/proc.c:284-323 | exactly that process leaves the table with all its threads, and its page is the next one handed out; if a thread cannot be destroyed, those before it are gone and all else stays |
| ProcTable.Proc.DropThreads | kern/proc.c:294-311 | the loop stops at the first thread that cannot be destroyed |
| ProcTable.Proc.RemoveThread | kern/proc.c:374-403 | the first wrapper of the thread leaves the list, failure if and only if there is none |
| ProcTable.Boot | kern/proc.c:152-187 | the pool as the setup fills it meets what the table relies on |
| ProcTable.PageReturned | kern/vm_pool.c:164-174 | a held page always finds room in the pool, and pool and held pages stay disjoint |

## Left out

- IpcKernel.Kernel.Send: the queues of the kernel object are sequences, not rings of pointers; `SchedQueues.dfy` does the same queue operations on rings.
- IpcKernel.Kernel.SyscallHandle: notify with destination 0 dereferences a null process in the source and is excluded by a precondition; so is a null current thread, which the invariant rules out.
- IpcRuns.RunSafe: threads and processes are fixed during a run, because destroying a thread unlinks it through the blocked queue wherever it is; a notify of the head of the caller's wait list and a send queued on the caller's own process are excluded, since after them the result is false.
- IpcRuns.InitialSafe: the wait list of a new process is taken to be empty, which `kern/proc.c` leaves to the memory it was given.
- ClientProgress.RequestAnswered: how many turns a program needs for its next call is a parameter; the time slices of the clock are not modelled.
- ClientServer.OneReplyEach: the arithmetic of the server and the buffer copies, which the programs comment out, are not modelled; a request is three words.
- Llist.List.Merge: the exchange of the two `prev` pointers by XOR of addresses is a simultaneous assignment; that XOR exchanges words is proved for the sort.
- SlabRuns.RunKeeps: allocations that would grow a cache of inexact size, and callers that free what they do not hold; `SlabRuns.InexactRunsDry` and `SlabRuns.FreeExact` say what they lead to.
- SlabAllocator.Allocator.FreeObject: a buffer that is no object of its slab has two pointers written before it, over whatever is there.
- SlabAllocator.Allocator.GrowCache: strides beyond the end of the page, for which the loop bound wraps and blocks would be threaded over other pages.
- SlabAllocator.Allocator.Alloc: control blocks and headers are entries of maps keyed by address, and slab lists are sequences; page faults on a slab's own page are not modelled.
- SlabRuns.PageZeroStays: address spaces of processes also take pages from the pool; runs of the slab allocator are those without them.
- E820Sort.QSort: indices are integers; what a wrapped index does to memory behind the map is not modelled. `E820Sort.Wraps`, when one wraps, follows the partitions; only the two conditions stated beside it can be read off the unsorted map.
- E820.Sanitize: an empty map, for which the sort reads beyond its array; the loop that copies the boot loader's map, the fallback map built from two sizes, and entries that do not fit the address space.
- Paging.Poke: an entry is written as one word, where the source writes its bit fields one by one; access rights, the TLB and stores of programs to their own pages are not modelled.
- Paging.TwoRounds: that frames handed to the fault handler are free is assumed; the counter in `kern/arch/x86/exceptions.c` does not check it.
- ProcTable.Table.Create: the process cache and the synchronization of the address space are parameters; names of processes are not modelled.
- ProcTable.Table.Destroy: which threads can be destroyed is a parameter.
- PagingUnit.Unit.SyncSpace: a page for the new directory that is not mapped yet, which the source faults in on its first write.
- Serial output, interrupt controllers, descriptor tables, context switching in assembly, the pager, ELF loading and interrupt handler lists: hardware access or fixed tables.
- The running and dead queues, priorities and quantum fields: no step uses them.
