# Coroutine runtime, event loop, bridge, relay and tunnel: a verified model

This Dafny project models the concurrent core of the repository and proves what that core is for.

* **The coroutine runtime** (`coroutine/src`). `RunQueue` is the kernel as control only: who runs, who is ready,
  who is alive. `Kernel` adds registers and stacks in the ideal form, where every coroutine has a stack of its own.
  `Pool` is the machine of the source: N >= 1 shared stacks (the source has one), `used_by`, copies in the heap,
  the scheduler's own stack. The central theorem, `Pool.RunSimulates`, says that every run of the pooled machine is,
  register by register and byte by byte, a run of the ideal one. `Scheduler`, `Stacks` and `Runtime` are the same
  operations on objects, arrays and fields updated in place, each tied to the function of `Pool` it carries out, and
  `Client` is whole scripts of calls on those objects, each a run of both machines (`Client.PerformAll`).
  `Swapper` is `swapper.s` on a register and memory machine, and `Memory` puts the pooled machine into that memory:
  what the instructions do to it is what the pooled machine's save and load do (`Memory.ResumesCaller`).
* **The event loop** (`network/epoll/epoll.hpp`). `Drain` is the inner loop of `poll_forever` with its termination.
  `EventLoop` is the wait and wakeup protocol as a state machine in which the kernel may step between any two steps
  of the coroutines. `AsyncFile` and `Datagrams` are the retry loops, `trigger` and the dispatch of a batch, in
  place; the kernel's answers, and what others do to the record during a suspension, are parameters.
* **The learning bridge** (`bridge/ether_bridge.hpp`) in `Bridge`, **the UDP relay** (`bridge/udp_bridge.hpp`) in
  `Relay`, and **the tunnel's codec** (`crypto/AES.cpp`) in `Tunnel`. Clock readings, random initial vectors, the
  content of uninitialised memory, the block cipher and what other coroutines do to a table meanwhile are parameters.

What clients promise is a predicate (`Legal`, `Enabled`): they post and destroy only parked coroutines, the root only
reschedules, compiled code stays inside its own stack and does not overwrite the return slot of its outermost frame,
at most one coroutine at a time reads, writes or waits on a descriptor, and the bridge's table entry whose handler is
suspended is neither evicted nor re-learned meanwhile (`Spares`).

## Findings

* `poll_forever` joins the kernel's bits with the bit it asks about (`|` where a mask would be `&`), so every event
  is reported as readable and writable and an error never is. Readers and writers are robust to this, also when their
  descriptor fails (`EventLoop.NoLostWakeup`); a coroutine in `async_wait(ERROR)` alone is never woken but by a
  coroutine that posts it (`EventLoop.ErrorWaitsForever`, `EventLoop.ErrorWaitEnds`). That takes three steps from the start
  (`EventLoop.ErrorWaitReached`), and then the descriptor fails and is reported in vain
  (`EventLoop.ErrorReportedInVain`).
* A frame crosses the tunnel if and only if it has at most 1471 bytes. A tap frame of 1472 to 1500 bytes, which the
  bridge reads and sends, always makes decryption throw at the other end (`Tunnel.TunnelBound`).
* A relay call that returns early leaves a peer it has just registered with a time that is never set; an eight-byte
  DATA message from a new sender is such a call (`Relay.UnsetStampReached`). Over a run, the map never depends on
  unset times if and only if no call that returns early registers anyone (`Relay.UnsetTimesInARun`). What the relay
  sends never depends on them if and only if no call exposes one: by a report while some entry may have an unset time
  or for a sender that has none, or by a message to an address of which an unset time leaves open whether a sweep has
  removed it (`Relay.SentTimesInARun`). Besides, every report prints `ping_`, which nothing ever sets.
* The bridge cleans its table up at every call, at the reading of the clock then. The table is the history of frames
  cut off once, at the last clean-up, if and only if, for every source, some clean-up since its latest frame read
  more than 600 s past that frame exactly when the last one does (`Bridge.TableRefinesHistoryIff`). A clock that
  does not go back has that property (`Bridge.TableRefinesHistory`); one that does may lose a fresh entry
  (`Bridge.ClockGoingBackLoses`) or not (`Bridge.ClockGoingBackMayAgree`). The relay's sweep works alike: what its
  map holds, and when an echo comes back, is exact for any clock and any unset times (`Relay.PeerMapIsHistory`,
  `Relay.PeerMapRefinesHistoryIff`, `Relay.EchoInAnyRun`).
* `co_memcpy` copies upwards, so it moves every block as it was if and only if the blocks are disjoint or the move is
  downwards (`Swapper.UpwardCopyIsRight`). The runtime relies on it only between a stack and the heap, which are
  disjoint.

## Model

| member | source | states |
|---|---|---|
| RunQueue.Step | coroutine/src/coroutine.cpp:77-160 | every legal operation keeps the kernel well formed: the queue has no duplicates, names only live coroutines, never the running one, and holds the root whenever the root is not running, so no dispatch meets an empty queue |
| RunQueue.ExactlyOnePlace | coroutine/src/coroutine.cpp:77-160 | in every reachable kernel a live coroutine is running, or at exactly one queue position, or parked, and never two of these; nothing queued is dead |
| RunQueue.Fifo | coroutine/src/scheduler.hpp:28-38 | over whole runs, what was ready followed by what was enqueued is what was dispatched followed by what is still ready |
| RunQueue.BoundedWaiting | coroutine/src/scheduler.hpp:28-38 | the coroutine at index k runs at exactly the (k+1)-th switch, whatever is posted meanwhile, and moves up one place per switch until then |
| RunQueue.RootRound | network/epoll/epoll.hpp:122-124 | one root `co_resched` runs exactly the coroutines ready at that moment, once each and in order; later posts land behind the root |
| Kernel.Step | coroutine/src/coroutine.cpp:77-160 | every step of the private-stack machine keeps each live stack the right size and, but for the root's, guarded by `co_exit` |
| Kernel.ReturnEntersExit | coroutine/src/coroutine.cpp:127-136 | in every reachable kernel a routine that returns from its outermost frame lands in `co_exit`, and that destroys exactly that coroutine: it is no longer alive, ready or running |
| Kernel.GuardStays | coroutine/src/coroutine.h:38-41 | in every reachable kernel the top word of every created coroutine's stack names `co_exit` |
| Kernel.SuspensionTransparent | coroutine/src/coroutine.cpp:138-160 | whatever legal steps happen between a suspension and the return to the processor, the coroutine finds every register and every live stack byte as it left them |
| Kernel.AwayKeeps | coroutine/src/coroutine.cpp:111-160 | a coroutine that does not run and is not destroyed keeps its registers and stack through any run |
| Kernel.RunProjects | coroutine/src/coroutine.cpp:77-160 | whatever the coroutines compute, the ready queue moves as the control steps alone dictate, so the laws of the queue hold of every run |
| Context.GuardNamesExit | coroutine/src/coroutine.h:38-41 | the eight guard bytes are the address of `co_exit` as it is stored, and no other eight bytes read as it |
| Pool.EvictInvisible | coroutine/src/coroutine.h:140-150 | saving the owner of a shared stack into a new block changes no coroutine's registers or virtual stack and keeps every ownership invariant |
| Pool.RestoreInvisible | coroutine/src/coroutine.h:152-164 | copying a coroutine back into a free stack changes no coroutine's registers or virtual stack, and it then owns the stack |
| Pool.SwapInInvisible | coroutine/src/coroutine.cpp:95-106 | swapping a coroutine in, evicting the owner if there is one, is invisible to every coroutine and leaves it in its stack |
| Pool.SchedInvisible | coroutine/src/coroutine.cpp:111-124 | `co_sched` hands the processor to the front of the queue, loads its context, and disturbs nobody's registers or stack |
| Pool.SaveRecords | coroutine/src/asm/swapper.s:3-17 | `save_context` changes nothing but where the running coroutine will continue |
| Pool.DeleteLeavesOthers | coroutine/src/coroutine.h:79-99 | deleting a coroutine removes exactly its stack or its copy and its claim on a shared stack; every other coroutine keeps registers and stack |
| Pool.CreateOk | coroutine/src/coroutine.cpp:27-33 | `co_create` adds one coroutine, parked, whose saved context and guarded stack `FirstRun` spells out, and changes no other |
| Pool.CreateSharedOk | coroutine/src/coroutine.cpp:35-40 | `co_create_shared` adds one coroutine whose first copy is the guard, whoever owns the slot it is assigned, and changes no other; `FirstRun` spells out its context |
| Pool.FirstRun | coroutine/src/coroutine.h:60-114 | when a new coroutine, private or shared, gets the processor for the first time after any legal run, that is at `co_launch`, with all callee-saved registers 0, mxcsr 0x1f80 and the x87 control word 0x37f, on the stack it was given, RSP one word below the top and `co_exit` in that word |
| Pool.FirstRunReached | coroutine/src/coroutine.cpp:27-40 | from any state in which nobody is ready, creating a coroutine, posting it and rescheduling are legal and end with its first turn |
| Pool.SlotsInTurn | coroutine/src/coroutine.cpp:22-25 | over any run from `co_init`, the n-th coroutine on a shared stack, counted from 0, is on slot n modulo the number of slots |
| Pool.OwnOk | coroutine/src/coroutine.h:125-139 | whatever the running coroutine writes in the stack it is in, live or below RSP, no other coroutine's virtual stack changes |
| Pool.StepSimulates | coroutine/src/coroutine.cpp:77-160 | every operation of the pooled machine is the corresponding step of the private-stack machine on what it stands for |
| Pool.RunSimulates | coroutine/src/coroutine.cpp:95-124 | every run of the pooled machine, for any number of slots, is a legal run of the machine with private stacks, with equal registers, live bytes and queue at the end |
| Pool.SuspensionRestores | coroutine/src/coroutine.h:140-164 | when a coroutine runs again after any legal run, the processor holds its registers and the same addresses of the same stack hold the bytes it left, however often the stack was moved |
| Pool.ReturnSimulates | coroutine/src/coroutine.cpp:127-136 | a routine that returns from its outermost frame, on whatever stack it is, finds `co_exit` in that stack's memory, and what follows is exactly the step by which the private-stack machine destroys it |
| Pool.GuardInPlace | coroutine/src/coroutine.h:70-76 | in every reachable state the top word of the running coroutine's own stack memory is `co_exit`, shared or private |
| Pool.GuardEverywhere | coroutine/src/coroutine.h:67-76 | in every reachable state the virtual stack of every live coroutine but the root ends in `co_exit`, whether its bytes are in a stack or in a copy |
| Pool.Conservation | coroutine/src/coroutine.h:140-164 | in every reachable state the blocks allocated and not freed are the live shared coroutines less the occupied shared stacks: no copy leaks |
| Pool.StacksInUse | coroutine/src/coroutine.h:79-99 | in every reachable state the private stacks are exactly those of the live private coroutines, no two of which have the same, and all other stacks are the slots of the pool |
| Pool.InitialGood | coroutine/src/coroutine.cpp:57-75 | what `co_init` sets up satisfies all invariants |
| Scheduler.RoundRobin.Dequeue | coroutine/src/scheduler.hpp:33-38 | takes the front of the queue and leaves the rest in order |
| Scheduler.RoundRobin.Enqueue | coroutine/src/scheduler.hpp:28-31 | appends at the back |
| Stacks.CoMemcpy | coroutine/src/asm/swapper.s:41-45 | the bytes land at their place and nothing else changes |
| Stacks.CoStack.SetExitGuard | coroutine/src/coroutine.h:38-41 | the top word becomes the guard and nothing else changes |
| Stacks.Coroutine.constructor | coroutine/src/coroutine.h:60-114 | the new coroutine starts in `co_launch` one word below the top, with the default control words; a shared one gets one new block with the guard, a private one the guard in its stack |
| Stacks.Coroutine.SaveStack | coroutine/src/coroutine.h:140-150 | the copy is exactly the bytes from RSP to the top, in a new block |
| Stacks.Coroutine.RestoreStack | coroutine/src/coroutine.h:152-164 | the copy is back below the top, its block is freed once, and the coroutine owns the stack |
| Stacks.Coroutine.Delete | coroutine/src/coroutine.h:79-99 | gives up the stack only if it owns it and frees its copy only if it has one |
| Runtime.Runtime.constructor | coroutine/src/coroutine.cpp:57-75 | the objects after `co_init` are an initial state of the pooled machine, with so many different slots, each of the size asked for |
| Runtime.Runtime.SwapIn | coroutine/src/coroutine.cpp:95-106 | the objects, arrays and heap after the call are the pooled machine's state after its swap |
| Runtime.Runtime.CoSched | coroutine/src/coroutine.cpp:111-124 | likewise for the dispatch, with the front of the queue as current |
| Runtime.Runtime.CoResched | coroutine/src/coroutine.cpp:138-148 | needs only the invariant, never an empty-queue check, and leaves the state the pooled machine's step gives |
| Runtime.Runtime.CoYield | coroutine/src/coroutine.cpp:150-160 | the caller is handed out and parked, the next coroutine is swapped in and runs |
| Runtime.Runtime.CoExit | coroutine/src/coroutine.cpp:127-136 | the running coroutine is deleted with its stack and the next one runs |
| Runtime.Runtime.CoReturn | coroutine/src/coroutine.h:102-114 | a ret reads its target from the current stack's array and ends the coroutine if it is `co_exit` |
| Runtime.Runtime.CoPost | coroutine/src/coroutine.cpp:77-80 | a parked coroutine goes to the back of the queue |
| Runtime.Runtime.CoDestroy | coroutine/src/coroutine.cpp:42-47 | a parked coroutine disappears with its stack or copy |
| Runtime.Runtime.CoAllocSharedStack | coroutine/src/coroutine.cpp:22-25 | the slots are handed out in turn |
| Runtime.Runtime.CoCreate | coroutine/src/coroutine.cpp:27-33 | a new object with a new stack, parked, and nobody else changed |
| Runtime.Runtime.CoCreateShared | coroutine/src/coroutine.cpp:35-40 | a new object on the next slot with its guard as its copy, parked, and nobody else changed |
| Client.Check | coroutine/src/coroutine.cpp:22-160 | whether a call keeps a client's promises is a condition on the objects a client can read, equivalent to the promise in terms of the private-stack machine |
| Client.PerformAll | coroutine/src/coroutine.cpp:22-160 | a whole script of creations, posts, switches, destructions, returns and computations, which names coroutines by the order of their creation, carried out on the objects up to the first action that breaks a promise, leaves exactly the state of a run of the pooled machine, and that stands for a legal run of the private-stack machine |
| Swapper.ImageDecodes | coroutine/src/asm/swapper.s:22-34 | loading the memory image of any context gives every register back |
| Swapper.ImagePieces | coroutine/src/asm/swapper.s:4-15 | the memory image of a context register by register: which bytes hold which |
| Swapper.SuspensionTransparent | coroutine/src/asm/swapper.s:3-34 | whatever happens to other memory, the caller of `save_context` is resumed behind its call with every callee-saved register of section 3.2.1 of the System V AMD64 psABI, mxcsr, the x87 control word and its live stack as at the call |
| Swapper.Cpu.SaveContext | coroutine/src/asm/swapper.s:3-19 | the instructions write exactly the image of the context, to continue at the final ret, and enter the handler on the new stack |
| Swapper.Cpu.LoadContext | coroutine/src/asm/swapper.s:22-34 | the instructions load exactly what the image says |
| Swapper.Cpu.CoMemcpy | coroutine/src/asm/swapper.s:41-45 | rep movsb leaves, for any two blocks, the memory of one byte copied after the other upwards; for disjoint blocks and downward moves the destination holds the source as it was |
| Swapper.CopiedUpIsSplice | coroutine/src/asm/swapper.s:41-45 | for disjoint blocks and downward moves the upward copy puts the source as it was in place and changes nothing else |
| Swapper.UpwardCopyIsRight | coroutine/src/asm/swapper.s:41-45 | the upward copy moves every block as it was, whatever the memory holds, if and only if the blocks are disjoint or the move is downwards |
| Swapper.Cpu.SuspendAndResume | coroutine/src/asm/swapper.s:3-34 | save, arbitrary interference, load and ret in sequence restore the caller's registers and live stack |
| Memory.Suspend | coroutine/src/asm/swapper.s:3-19 | in a memory that holds all contexts and stacks, the instructions of `save_context` leave one that holds the pooled machine's state after saving |
| Memory.Resume | coroutine/src/asm/swapper.s:22-34 | the instructions of `load_context` put the registers of the pooled machine's state after loading into the processor |
| Memory.ResumesCaller | coroutine/src/coroutine.cpp:138-160 | end to end: a coroutine that reschedules or yields and runs again after any legal run finds itself behind its call of `save_context`, with every register and every byte of its live stack, at the same addresses, as they were |
| Drain.ActDecreases | network/epoll/epoll.hpp:122-124 | every kernel call of a coroutine uses up budget or shortens the ready queue |
| Drain.ActDoes | coroutine/src/coroutine.cpp:27-160 | what each call of a script makes of the queue and the scripts: a post queues at the back, a reschedule the caller itself, a yield leaves the caller in no queue, an exit ends its life, and a new coroutine is queued with its script |
| Drain.OneWay | network/epoll/epoll.hpp:122-124 | from any system there is one sequence of calls up to the point where nothing is left to do or a promise is broken, and so one result |
| Drain.CoResched | coroutine/src/coroutine.cpp:138-148 | one root `co_resched` returns, where the scripts lead and after exactly the coroutines ready before have run once each in order, with less left to do |
| Drain.DrainLoop | network/epoll/epoll.hpp:122-124 | if every coroutine makes finitely many calls, the drain loop ends exactly where the scripts lead, with nobody ready and the root running, or with a client's promise broken; its calls are a legal run of the ready queue, and whoever was ready has run, in order |
| EventLoop.NextInv | network/epoll/epoll.hpp:119-143 | every step of the kernel, of the root and of the coroutines, also a yield outside of I/O and a post of a coroutine that waits for I/O, keeps the protocol's invariant |
| EventLoop.NoLostWakeup | network/epoll/epoll.hpp:189-330 | in every interleaving, a coroutine that has yielded in a read on a descriptor with data, in a write on one with room, in either on one that has failed, or in an `async_wait` for either, has an edge coming, is in the rest of the batch, is queued, or is running |
| EventLoop.BlockingIsSafe | network/epoll/epoll.hpp:125-128 | when the root blocks and no edge is coming, nobody is ready and every coroutine in a read, a write or an `async_wait` waits for something that has not happened |
| EventLoop.TriggerPostsSleepers | network/epoll/epoll.hpp:315-330 | trigger posts each coroutine at most once and only ones parked on this descriptor and not posted since, though `event_` is never cleared |
| EventLoop.TriggerWakes | network/epoll/epoll.hpp:315-330 | trigger posts a coroutine if and only if it is parked on this descriptor in a read, a write, or a wait for something ever reported |
| EventLoop.BatchStartsDrained | network/epoll/epoll.hpp:122-129 | every batch begins with an empty queue and everybody asleep |
| EventLoop.WakeupArrives | network/epoll/epoll.hpp:122-141 | in every behaviour from the return of `epoll_wait`, each coroutine asleep on a descriptor of the batch in a read, a write or a wait for either has had the processor before the root polls again |
| EventLoop.ErrorWaitsForever | network/epoll/epoll.hpp:134-139 | a coroutine that waits for the error condition alone stays asleep in every behaviour in which nobody posts it, whatever happens to its descriptor |
| EventLoop.ErrorWaitReached | network/epoll/epoll.hpp:189-200 | such a wait is reached from the start in three steps, on any descriptor |
| EventLoop.ErrorReportedInVain | network/epoll/epoll.hpp:119-141 | from there the descriptor fails, `epoll_wait` returns it and trigger is called on it, and the coroutine still sleeps |
| EventLoop.ErrorWaitEnds | network/epoll/epoll.hpp:189-200 | another coroutine that posts the sleeper and reschedules does bring it back to the processor |
| EventLoop.IoWaitReached | network/epoll/epoll.hpp:253-314 | from the start, five steps put a coroutine to sleep in a read on an empty descriptor or a write on a full one, registered as the reader or the writer |
| EventLoop.IoWaitEnds | network/epoll/epoll.hpp:119-330 | from there, when bytes arrive or room is made, the report, the trigger, the post and the drain loop bring it back; it takes itself off the record, moves any part of what is there, and exits |
| EventLoop.WaitEnds | network/epoll/epoll.hpp:119-330 | the same from the start to the end of an `async_wait` for reading or for writing |
| AsyncFile.AsyncFileEvent.Trigger | network/epoll/epoll.hpp:315-330 | adds to `event_` and posts exactly the waiters whose bits match, the writer first, then the reader, then who waits for a condition |
| AsyncFile.AsyncFileEvent.AsyncWait | network/epoll/epoll.hpp:189-200 | returns at once, changing nothing, if something asked for was ever reported; otherwise waits and forgets its mask afterwards |
| AsyncFile.AsyncFileEvent.AsyncRead | network/epoll/epoll.hpp:253-283 | for every sequence of partial reads, EAGAINs and spurious wakeups: it takes the answers up to the first with which it has all count bytes, or that is an error, and returns count or -1 accordingly; the bytes taken, as many as those answers move, are in the buffer in order; and it yields, registered as the reader, at exactly the EAGAINs before |
| AsyncFile.AsyncFileEvent.AsyncWrite | network/epoll/epoll.hpp:284-314 | it takes the answers up to the first with which all count bytes are out, or that is an error, and returns count or -1 accordingly; the stream grows by as much of the buffer's front as those answers take; it yields, registered as the writer, at exactly the EAGAINs before |
| AsyncFile.AsyncFileEvent.AsyncReadSome | network/epoll/epoll.hpp:201-226 | it takes the answers up to the first that brings bytes, and returns exactly those, or that is an error, with nothing taken; it yields at exactly the EAGAINs before |
| AsyncFile.AsyncFileEvent.AsyncWriteSome | network/epoll/epoll.hpp:227-252 | it takes the answers up to the first that takes bytes, and returns how many of the buffer's front went out, or that is an error, with nothing sent |
| AsyncFile.TookOnce | network/epoll/epoll.hpp:201-314 | how many answers a retry loop takes, and whether it returns, is settled by the answers: there is one outcome |
| AsyncFile.AllMovesAdd | network/epoll/epoll.hpp:253-314 | as long as less than count bytes were moved, no more answers moved anything than bytes were moved |
| AsyncFile.EpollEventPool.Dispatch | network/epoll/epoll.hpp:129-141 | the records and the ready queue after a batch are those of triggering its known descriptors in order, whatever bits the kernel set |
| AsyncFile.BatchOnce | network/epoll/epoll.hpp:129-141 | in a batch of distinct descriptors every record is reported to once, as it was before the batch |
| Datagrams.UdpSocket.AsyncReadFrom | network/socket.hpp:158-181 | it takes the answers up to the first that brings a datagram or an error; a call that returns a length has taken exactly one datagram, the first, cut to the buffer, and any other none; it yields, registered, at exactly the EAGAINs before |
| Datagrams.UdpSocket.AsyncSendTo | network/socket.hpp:130-157 | it takes the answers up to the first that takes the datagram or is an error; the datagram goes out exactly once if its length is returned and not at all otherwise |
| Common.MemLessTotal | bridge/ether_bridge.hpp:47-54 | memcmp's order is strict and total and agrees with equality of the bytes |
| Common.MemLessFirst | bridge/ether_bridge.hpp:47-50 | memcmp's sign is that of the first byte that differs |
| Bridge.MemLessIsRank | bridge/ether_bridge.hpp:47-50 | the order of addresses is that of the numbers they spell, so iteration in key order ends |
| Bridge.MacTable.Next | bridge/ether_bridge.hpp:138-142 | the iterator goes to the least key above, or to the end if there is none |
| Bridge.MacTable.CheckTimeout | bridge/ether_bridge.hpp:106-120 | erasing while iterating leaves exactly the records at most 600 s old |
| Bridge.EthernetBridge.Forward | bridge/ether_bridge.hpp:172-205 | clean-up, then nothing for a frame of less than 14 bytes; otherwise learning, then the one handler of a known destination or the flood, also while others change the table during a handler |
| Bridge.EthernetBridge.Flood | bridge/ether_bridge.hpp:195-204 | the loop is a walk over the changing table that calls the handlers it comes by except the source's; the table of each step is what the others made of the one before during that handler; and it ends |
| Bridge.FloodServesOnce | bridge/ether_bridge.hpp:195-204 | under interference nobody is served twice, the source never, in key order, each with the handler of that moment, and every other entry present throughout is served |
| Bridge.PresentIsVisited | bridge/ether_bridge.hpp:197-203 | an iteration cannot step over an entry that stays |
| Bridge.QuietFlood | bridge/ether_bridge.hpp:195-204 | without interference the flood serves exactly the entries other than the source's |
| Bridge.TableIsHistory | bridge/ether_bridge.hpp:76-120 | whatever the clock does, the table after any calls is the latest accepted frame of each source, but for the sources past whose frame some clean-up since read more than 600 s |
| Bridge.LearnedInBytes | bridge/ether_bridge.hpp:76-205 | whatever the clock does, k is in the table, with the handler and time of call h, if and only if h is the last call of at least 14 bytes whose bytes 6 to 12 are k, and no clean-up since read more than 600 s past it |
| Bridge.TableRefinesHistoryIff | bridge/ether_bridge.hpp:106-120 | the table is that history cut off once, at the last clean-up, if and only if for every source some clean-up since its latest frame read past it exactly when the last one does |
| Bridge.TableRefinesHistory | bridge/ether_bridge.hpp:76-120 | so it is with a clock that does not go back: eviction loses nothing and keeps nothing extra |
| Bridge.DeliveryOfAnyRun | bridge/ether_bridge.hpp:172-205 | whatever the clock does, after any run a unicast frame goes to the handler of its destination's latest frame, and a broadcast once to that of every source but the sender, unless a clean-up since read more than 600 s past that frame |
| Bridge.DeliveryInBytes | bridge/ether_bridge.hpp:172-205 | after any run, a frame of at least 14 bytes whose first six are 255 goes once to everybody so learned but its bytes 6 to 12, and any other to who is learned for its first six bytes, or to nobody |
| Bridge.DeliverySet | bridge/ether_bridge.hpp:172-205 | with a clock that does not go back, a unicast frame goes to the latest live handler of its destination or nowhere, and a broadcast once to every other live source and never to the sender |
| Bridge.ClockGoingBackLoses | bridge/ether_bridge.hpp:106-120 | a concrete history in which a clock that goes back makes the table lose a fresh entry |
| Bridge.ClockGoingBackMayAgree | bridge/ether_bridge.hpp:106-120 | a concrete history in which a clock that goes back loses nothing |
| Relay.AddressLessTotal | network/socket.hpp:83-91 | the order on length and bytes is strict and total, and its equivalence is equality of the addresses |
| Relay.AddressLessFirst | network/socket.hpp:83-91 | the shorter address is less, and of equally long ones the one with the less first byte that differs |
| Relay.AddressLessTransitive | network/socket.hpp:83-91 | the order is transitive |
| Relay.UdpBridge.Foward | bridge/udp_bridge.hpp:76-155 | the peer map, the message sent or the entries reported, and the rewritten receive buffer after any call, for every message type, the short message, the unknown peer and the early returns, as `EveryMessage` spells them out |
| Relay.EveryMessage | bridge/udp_bridge.hpp:76-155 | type by type: a ping (0) or pong (1) keeps its sender alive and is not answered; a request for information (2) does too and is answered, to its sender, with all entries; data (3) of more than 8 bytes goes to the IPv4 address and port in its bytes 2 to 8, if registered, with the sender's in their place; anything else is dropped, and only registers its sender |
| Relay.UdpBridge.Sweep | bridge/udp_bridge.hpp:148-154 | exactly the peers silent for more than 60 s at their own reading of the clock go |
| Relay.SenderSurvives | bridge/udp_bridge.hpp:141-154 | after a completed call its sender is registered, with the time of the call, if and only if the sweep came to it within 60 s of that |
| Relay.EchoIsInverse | bridge/udp_bridge.hpp:101-135 | a verbatim echo of a relayed message reaches its sender byte for byte if and only if the sender has a plain IPv4 address and is registered then; the payload never changes |
| Relay.EchoInARun | bridge/udp_bridge.hpp:76-155 | with a clock that does not go back, over any run in between, the echo comes back as long as no sweep was more than 60 s after the sender's call |
| Relay.EchoInAnyRun | bridge/udp_bridge.hpp:76-155 | whatever the clock does and whatever unset times are, the echo comes back after any run if and only if no sweep since the sender's entry was last set came to it more than 60 s after the time it was given, or the sender echoes to itself |
| Relay.PeerMapIsHistory | bridge/udp_bridge.hpp:76-155 | whatever the clock does, the map after any calls holds each peer with the time its entry was last given, by a completed call or by an early registration, but for those to which some sweep since came more than 60 s after it |
| Relay.PeerMapRefinesHistoryIff | bridge/udp_bridge.hpp:148-154 | the map is that history cut off once, at the last sweep, if and only if for every entry some sweep since it was set came to it past 60 s exactly when the last one does |
| Relay.PeerMapRefinesHistory | bridge/udp_bridge.hpp:76-155 | so it is with a clock that does not go back, when no call since the last sweep has registered anyone |
| Relay.UnsetStamp | bridge/udp_bridge.hpp:78-81 | what one call makes of a given map is independent of the unset time it may leave itself if and only if the call completes or the sender was registered |
| Relay.UnsetStampReached | bridge/udp_bridge.hpp:78-105 | a concrete call that leaves the unset time in the map |
| Relay.UnsetReport | bridge/udp_bridge.hpp:90-100 | what one call sends, given the map, shows its own unset time if and only if a new sender asks for the report |
| Relay.UnsetTimesInARun | bridge/udp_bridge.hpp:78-105 | over a run, the map after every call is independent of all unset times if and only if no call that returns early registers anyone |
| Relay.SentTimesInARun | bridge/udp_bridge.hpp:76-155 | over a run, everything sent is independent of all unset times if and only if no call reports while an entry may have one or for an unregistered sender, or relays to an address whose presence hangs on one |
| Tunnel.CbcRoundTrip | crypto/AES.cpp:90-106 | CBC as in section 6.2 of NIST SP 800-38A over any invertible block cipher decrypts what it encrypts |
| Tunnel.CbcBlock | crypto/AES.cpp:90-106 | every block of ciphertext is the cipher applied to the exclusive or of the text block with the ciphertext block before it, or with the vector |
| Tunnel.UnpadIsInverse | crypto/AES.cpp:128-138 | padding as in section 6.3 of RFC 5652 is taken off a text if and only if it was put on |
| Tunnel.PadCounts | crypto/AES.cpp:95-106 | the padded text is the text and 1 to 16 bytes, each of which counts them, up to whole blocks |
| Tunnel.EncryptPieces | crypto/AES.cpp:95-106 | encrypting the whole blocks first and the padded rest at the end is encrypting the padded text |
| Tunnel.DecryptPieces | crypto/AES.cpp:128-138 | decrypting all but the last block first and taking the padding off the last block is decrypting the whole |
| Tunnel.Aes.Encrypt | crypto/AES.cpp:80-111 | all writes stay in the allocated buffer, and its front is vector, length and ciphertext |
| Tunnel.SealedLayout | crypto/AES.cpp:80-111 | the result byte by byte: 16 bytes of vector, the length with the least significant byte first, the ciphertext of the padded text |
| Tunnel.Aes.Decrypt | crypto/AES.cpp:113-145 | all writes stay in the allocated buffer; it fails exactly on a ragged ciphertext or bad padding, and otherwise starts with the text and has the stated length, at most the message's |
| Tunnel.XorMess | bridge/config.hpp:18-25 | masks exactly the first length bytes in place: of each, the high half stays and the low half n becomes 15 - n |
| Common.XorIsExclusive | bridge/config.hpp:23 | bit i of the exclusive or of two bytes is one if and only if bit i of exactly one of them is |
| Common.XorLowHalf | bridge/config.hpp:23 | the exclusive or with 0x0f, as a number |
| Tunnel.MessedHalves | bridge/config.hpp:18-25 | in every masked byte the high half is as before and the low half turned over |
| Tunnel.MessedTwice | bridge/config.hpp:18-25 | masking twice is doing nothing |
| Tunnel.SealedOpens | crypto/AES.cpp:80-145 | decrypting an encrypted frame gives the frame and its length |
| Tunnel.TunnelBound | bridge/ether_bridge.hpp:166 | the datagram fits the 1500-byte receive buffer if and only if the frame has at most 1471 bytes; then the frame comes out, and otherwise decryption throws |
| Tunnel.Aes.Tunnel | bridge/ether_bridge_client.cpp:27-65 | sending and receiving in sequence returns the frame up to 1471 bytes and an error above |

## Left out

- `co_dispath` and `ctx_switch.s`: nothing calls them; the former makes the target current before saving the caller.
- Stack overflow: a coroutine stays between RSP and the top of its stack, and what it writes below RSP is its own.
- Heap blocks hold their bytes as values with an identity, not as arrays: a copy is filled once and then only read, so aliasing of copies is not captured; that a block is freed once is.
- The copy is released with `delete` in one place and `free` in another: the allocator's own discipline is not modelled.
- The root's stack is a private stack of a size given to `co_init`, where the source leaves its bounds null because it never moves.
- Stacks.Coroutine.constructor: takes the stack at once, where the source sets it with `set_stack` directly afterwards.
- `co_launch` calls the routine stored in the running coroutine: routines are arbitrary computations here, so which one it is, and its parameter, are not part of this model.
- Stacks.CoMemcpy: its source is a value, since a copy in the heap is one, so overlapping blocks are not expressed there; `Swapper` has them in one memory.
- Two coroutines reading, or two writing, one descriptor at once: the second overwrites the first's pointer; excluded by the clients' promise.
- End of file in the retry loops: an answer that moves nothing and does not suspend, so a loop given only such answers is still going when they run out.
- AsyncFile.AsyncFileEvent.AsyncReadSome: with an empty buffer the loop never returns a length, as in the source; no progress is claimed for it.
- System calls, epoll registration, descriptor reuse, `accept`, `connect` and the moving of events: the kernel is a buffer and an edge per descriptor.
- Drain.DrainLoop: the kernel calls of each coroutine are a finite script; a client that posts a coroutine that is not parked ends the loop with a misuse.
- Handlers of the bridge are abstract values, so the server's capture of an address by reference is not seen.
- The iteration order of the relay's sweep: every entry has its own clock reading, so the order does not matter.
- Interleaved calls of the relay: its receive loop is one coroutine.
- Relay.UdpBridge.Foward: the contract has which entries the INFO reply lists with which times; it does not have the text made of them, in which `ping_` is whatever the memory was, nor its printing.
- Relay.SentTimesInARun: speaks of unset times; the unset `ping_` in the text of every report is not part of the model.
- Tunnel.Aes.Decrypt: needs the 20 bytes of vector and length, because the source reads past the end of a shorter datagram; and it does not say what follows the decrypted text when the length field claims more than there is, because that is what the allocator left.
- OpenSSL's internals, the key schedule and the quality of keys and vectors; LZ4, SOCKS5, YAML, tap devices, timers and the packet dump.
- `byte_buffer` growth: only shrinking happens on the modelled paths.
