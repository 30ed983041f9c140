# A verified model of the agent engine's concurrency and network layers

The agent engine is a C++ RPC runtime. This project models the parts of it whose correctness is not
visible in any single function, and proves what they promise:

- **Lock-free queue** (`TaggedPointers`, `LockFreeQueue`, `LockFreeQueueInvariant`,
  `LockFreeQueueLinearizability`, `LockFreeQueueProgress`, `LockFreeQueueNodes`). Push, Pop, FixList, AcquireNode and
  ReleaseNode as a step system: one step is one shared read, write or compare-and-swap, any number of
  threads interleave. Every run is linearizable to a FIFO queue.
- **Lock-free thread pool** (`LockFreeThreadPool`, `LockFreeThreadPoolProof`, `LockFreeThreadPoolItems`,
  `LockFreeThreadPoolShutdown`).
  The token protocol of N counting semaphores used round-robin, with sleeping, waking and spurious wake-ups
  as steps: items go through in turn, no wake-up is lost, shutdown ends even while producers push, and what it leaves queued is known
  when it begins.
- **RPC multiplexing** (`PacketQueues`, `PacketQueueRuns`, `ChannelPool`, `ConnectionRuns`,
  `ConnectionOrder`). The
  deadline-ordered queue and the channel pool as classes over linked nodes, relinked in place; the race
  of post, write, reply, timeout and close as a step system over both.
- **Wire codecs** (`DataBuffer`, `BufferGrowth`, `Crc32c`, `Crc32cPolynomial`, `AnetFrames`, `AnetDamage`, `AnetStreamer`,
  `DirectFrames`, `DirectConnection`, `FrameLayouts`, `HttpText`, `HttpLines`, `HttpParser`, `HttpFragments`,
  `HttpMessages`, `HttpHeads`, `HttpChunked`, `HttpReader`). Growing and compacting byte buffer, ANET frames with CRC-32C, direct payloads that
  bypass the buffer, and the resumable HTTP parser with its printer. Each reader is proved equal to a
  specification machine; for each machine decoding undoes encoding however the bytes are cut.
- **Connection life cycle** (`TcpComponent`, `TcpTransitions`, `ComponentRefs`, `ComponentCommands`,
  `IoWorker`). The TCP component's states,
  reconnect budget and place on its worker's list; reference counting through the asynchronous command
  queue, and the worker's linked list, relinked in place.
- **Module loader** (`ModuleLoading`, `ModuleOrders`, `ModuleManager`) and **nested length-limited streams
  with varints** (`Varint`, `LengthedStreams`).

Code that changes objects in place is modelled by classes and methods proved against specification
functions; protocols between threads are modelled as state machines over their steps, and theorems about
them hold for every run.

## Assumptions

- Memory is sequentially consistent, and one step reads or writes a whole word or a whole queued value.
- Lock-free queue: a comparison of 16-bit tags does not take a stale pointer for the current one. The steps
  carry this as part of `Enabled`, for the seven comparisons that need it; it holds whenever the two counts
  are less than a cycle of 65535 apart (`LockFreeQueueInvariant.WindowIsNotFooled`), and
  `TaggedPointers.FullCycleAliases` shows that no wider window will do. For six of them this means that no
  thread sleeps through a cycle; for the seventh, the back link that Pop reads, that no stale write into a
  recycled node has stayed there for one (`LockFreeQueueInvariant.AgedLinkIsTaken` says what happens
  otherwise). The queue may be of any length: comparisons of tail and head, and of FixList's place and the
  head, are exact by `LockFreeQueueInvariant.LiveSame`.
- Thread pool: as many slots as workers, no auto-scaler, and 64-bit counters that do not wrap.
- Connection: channel ids of live packets differ (`ChannelPool.IdsStayDistinct` gives the range over which
  automatic ids do), and deadlines are below the largest 64-bit time. Write cycles hold the component's
  lock from end to end; replies, timeout checks and closes give it up around each handler.
- Direct connection: the placeholder of a channel stays available and of constant size while packets
  arrive.
- The socket is a partial reader and writer that takes or gives any number of bytes, or fails.

## What turned out otherwise than the code suggests

- `closeHook` may return while another thread still has a packet in hand whose handler it is about to run,
  so that a finished close does not by itself mean that every handler has run:
  `ConnectionRuns.ClosedBeforeHandled` is such a run with a timeout check, `ConnectionRuns.ClosedBeforeReplied`
  one with a reply. `ConnectionRuns.ClosedConnectionHandledAll` says exactly when the handler has run.
- A packet with a handler and deadline 0 is never collected once written, not even by a close:
  `ConnectionRuns.ClosedWithoutDeadline` is such a run, and `ConnectionRuns.LostExactly` says exactly which
  packets this befalls. Posting replaces a deadline of 0 by the connection's queue timeout
  (agent_engine/network/anet/connection.cpp:102-104), so that it takes a queue timeout of 0.
- The HTTP parser consumes a carriage return behind a chunk before it knows what follows, so that cutting
  CR CR LF after the first byte changes the result (`HttpChunked.SplitMatters`, on whole messages).
  `HttpFragments.FragmentationExactly` says exactly which streams read the same in any pieces.
- Four damaged bytes across the edge of the checksum field can make up for one another
  (`AnetDamage.AcrossTheEdgePasses`), and a frame whose checksum flags are damaged is accepted unchecked
  (`AnetDamage.FlagsDamagePasses`). `AnetDamage.DamageIsRejected` gives the exact condition for every change
  of every payload; on one side of the edge, and beside the flags, damage is always found.
- `LockFreeThreadPool::Stop` ignores its parameter, so that items may stay queued after
  STOP_AFTER_QUEUE_EMPTY: `LockFreeThreadPoolShutdown.StopLeavesAnItem` is such a run. Even an empty queue
  may be left with an item, that of a producer caught between its tests of the run flag and of the size:
  `LockFreeThreadPoolShutdown.CaughtPushLeavesAnItem`. `LockFreeThreadPoolShutdown.LeftoverExactly` says
  exactly how many stay.
- After a failed `ModuleManager::Start`, `Stop` returns true at once and leaves the modules that were
  loaded: `ModuleManagers.FailedStartLeavesModules`; the contract of `ModuleManagers.ModuleManager.Stop`
  says exactly when a successful stop leaves nothing.
- `read` and `skip` of a length-limited stream take what is left as a signed 32-bit number. With 2^31 bytes or
  more left `read` asks for a copy of a negative number of bytes, and `skip` moves the cursor in front of the
  window (`LengthedStreams.LongStream`). `LengthedStreams.Nest.Read` and `LengthedStreams.Nest.Skip` say
  exactly when they work; `get` and the varint readers always do.
- The buffer computes its new size in single precision, so that it may grow by too little
  (`BufferGrowth.GrowsTooLittle`). It never does while data and need are at most 2^24 bytes each
  (`BufferGrowth.GrownSize`).
- Whether modules on a dependency chain longer than 64 start depends on the order of a map:
  `ModuleOrders.StartsInEveryOrder`.
- A reconnect that succeeds on the last attempt does not refill the budget, so that the next failure is
  final: `TcpComponents.LastAttemptEndsReconnecting` is such a run, and `TcpComponents.RefilledUnlessLast`
  says exactly when the component goes on reconnecting.
- A manual reconnect made while the handlers of a close still run is undone by the rest of the close: the
  component is connecting and yet off its worker's list (`TcpComponents.TooEarlyIsReachable`,
  `TcpComponents.TooEarlyIsUnlisted`). In all other runs it is listed exactly when in use
  (`TcpComponents.ListedWhenInUse`).

## Model

| member | source | states |
|---|---|---|
| `TaggedPointers.TagsFollowSequence` | agent_engine/util/lock_free.h:64-81 | The 16-bit next and previous tag operations, which skip 0xdead, are one step forward and back along the sequence of tags of an unbounded counter, at every counter value. |
| `TaggedPointers.WindowMakesTagsExact` | agent_engine/util/lock_free.h:59-81 | Two counters less than one cycle apart have equal 16-bit tags if and only if they are equal. |
| `TaggedPointers.FullCycleAliases` | agent_engine/util/lock_free.h:64-72 | After 65535 steps the tag repeats: the window of the previous result cannot be widened. |
| `LockFreeQueueInvariant.WindowIsNotFooled` | agent_engine/util/lock_free.h:59-81 | Two tagged pointers whose counts are less than a cycle apart are never confused. |
| `LockFreeQueueInvariant.LiveSame` | agent_engine/util/lock_free_queue.h:105-150 | Comparisons of two pointers into the live part of the queue are exact, however long the queue: the nodes differ where the positions do. |
| `LockFreeQueueInvariant.AgedLinkIsTaken` | agent_engine/util/lock_free_queue.h:112-133 | A back link whose tag has come round is taken by Pop, and leads to the node right behind the position it was written for: this is why the assumption on it is needed. |
| `PointerPacking.PackedWordsCompareAsPairs` | agent_engine/util/lock_free.h:47-62 | One comparison of packed 64-bit words decides equality of address and tag together, for every canonical address. |
| `LockFreeQueueInvariant.InitHasInv` | agent_engine/util/lock_free_queue.h:47-58 | The constructor establishes the invariant for any number of threads. |
| `LockFreeQueueInvariant.InvIsSafe` | agent_engine/util/lock_free_queue.h:77-205 | In every state of the invariant the address that any thread dereferences next is a node, although it may be stale and recycled. |
| `LockFreeQueueInvariant.StepKeepsInv` | agent_engine/util/lock_free_queue.h:77-205 | Every step of every thread keeps the invariant: each node in exactly one of queue, free list and one thread; forward links and values of live positions; every back link with a valid tag j leads to the node of position j+1, stale writes to recycled nodes included; the tagged free list; mSize. |
| `LockFreeQueueLinearizability.LegalMeansFifo` | agent_engine/util/lock_free_queue.h:77-139 | In a legal log the values that entered are those that left followed by those still queued, in order: nothing is lost, repeated or overtaken. |
| `LockFreeQueueLinearizability.AdvanceKeepsInv` | agent_engine/util/lock_free_queue.h:77-152 | Every step keeps the tie between shared memory and the log of operations, with Push effective at its tail swap, Pop at its head swap, and an empty Pop at its read of the tail. |
| `LockFreeQueueLinearizability.EveryRunIsLinearizable` | agent_engine/util/lock_free_queue.h:77-205 | Every state of every interleaving is linearizable: the log is a legal FIFO run, each completed call has its effect with its result at a time inside its own interval, each log entry belongs to exactly one call; nodes are in one place, mSize is queue length plus operations in flight, and no next step dereferences a non-node. |
| `LockFreeQueueLinearizability.RealTimeOrder` | agent_engine/util/lock_free_queue.h:77-139 | A call that returned before another began precedes it in the log. |
| `LockFreeQueueProgress.FixListRepairs` | agent_engine/util/lock_free_queue.h:141-152 | FixList, undisturbed, walks from the tail to the head in finitely many steps, leaves the queue's contents alone, and makes the head's back link lead to the next node. |
| `LockFreeQueueProgress.PopTakes` | agent_engine/util/lock_free_queue.h:101-139 | With a good back link Pop, undisturbed, takes exactly the oldest value and advances the head by one position. |
| `LockFreeQueueProgress.RepairThenRetry` | agent_engine/util/lock_free_queue.h:101-152 | A Pop that meets a missing or stale back link ends its repair at its own beginning, with the queue unchanged and the link good. |
| `LockFreeQueueProgress.SoloPopSwaps` | agent_engine/util/lock_free_queue.h:101-152 | From any reachable non-empty queue, of any length and whatever its back links hold, a Pop that runs alone swaps the head with the oldest value in hand. |
| `LockFreeQueueProgress.SoloPopReturnsOldest` | agent_engine/util/lock_free_queue.h:101-205 | It then releases its node and returns that value, and the queue has lost exactly it. |
| `LockFreeQueueProgress.StepOnlyBySuccess` | agent_engine/util/lock_free_queue.h:77-205 | Tail, head and free list head change only in a step in which a compare-and-swap on them succeeds. |
| `LockFreeQueueProgress.FailureMeansAnothersSuccess` | agent_engine/util/lock_free_queue.h:77-205 | Lock freedom: when a thread meets a changed word in its compare-and-swap, another thread has succeeded in one on the same word since the read. |
| `LockFreeQueueNodes.SoloPushLinks` | agent_engine/util/lock_free_queue.h:84-96 | A Push that runs alone appends its value and leaves a back link in the node before it, so that a Pop on what was an empty queue needs no repair. |
| `LockFreeQueueNodes.FreeNodesAreEmpty` | agent_engine/util/lock_free_queue.h:165-205 | In every interleaving nodes on the free list, and on their way to it, hold no value. |
| `LockFreeQueueNodes.SoloReleaseClears` | agent_engine/util/lock_free_queue.h:193-205 | A release that runs alone puts the node on top of the free list without value and back link. |
| `LockFreeQueueNodes.SoloAcquireReuses` | agent_engine/util/lock_free_queue.h:165-191 | An acquire that runs alone takes the node on top of the free list, if there is one. |
| `LockFreeThreadPoolProof.InitHasInv` | agent_engine/util/lock_free_thread_pool.cc:75-88 | A started pool satisfies the invariant. |
| `LockFreeThreadPoolProof.RoundGivesOne` | agent_engine/util/lock_free_thread_pool.cc:144-145 | A whole round of the index modulo the number of slots gives each slot exactly one ticket more, from any starting index. |
| `LockFreeThreadPoolProof.StepKeepsInv` | agent_engine/util/lock_free_thread_pool.cc:98-182 | Every step keeps the token accounting per slot: tokens present, consumed and under way are those ticketed; consumed tokens and unserved workers are the wait tickets; waiting is at most one round ahead; nobody sleeps on an unclaimed token; queue items are reserved. |
| `LockFreeThreadPoolProof.SpinnersHaveItems` | agent_engine/util/lock_free_thread_pool.cc:127-177 | In every run the queue holds an item for each worker in its pop loop, and while the pool runs one more for each unconsumed token; the size counter is queue length plus counted pushes plus items popped and not yet subtracted. |
| `LockFreeThreadPoolProof.JoinCoversEveryWaiter` | agent_engine/util/lock_free_thread_pool.cc:209-220 | Once Join has signalled, each slot's tokens, with those ticketed by producers and about to be given, are at least its unserved workers, whatever came before. |
| `LockFreeThreadPoolProof.JoinWakesEveryone` | agent_engine/util/lock.h:110-126 | Then nobody is asleep on a slot that no producer is about to signal: one signal per token has been enough. |
| `LockFreeThreadPoolItems.ItemsGoThrough` | agent_engine/util/lock_free_thread_pool.cc:113-182 | In every run the items queued are the items taken by workers, in that order, and then those in the queue; a worker works on the item it took last and a producer brings the one it was called with; each item brought is refused, on its way or queued, and each taken is worked on or done, as often. |
| `LockFreeThreadPoolItems.AdmissionExactly` | agent_engine/util/lock_free_thread_pool.cc:118-125 | A producer goes on exactly when the counter is within the limit; otherwise it waits, or is refused if it is not to block. |
| `LockFreeThreadPoolShutdown.ShutdownNeverSticks` | agent_engine/util/lock_free_thread_pool.cc:155-182 | From Stop on, with producers anywhere in PushWorkItem, there is a useful step for every worker that has not exited: its own, or that of the one it waits for. |
| `LockFreeThreadPoolShutdown.WaitsForSomeone` | agent_engine/util/lock_free_thread_pool.cc:113-173 | A waiting worker after Join has a token, or a woken worker before it does, or a producer holds the ticket of its slot and can signal. |
| `LockFreeThreadPoolShutdown.UsefulStepsCount` | agent_engine/util/lock_free_thread_pool.cc:98-220 | Every useful step, of a worker, a producer or Join, strictly lowers the distance to the end. |
| `LockFreeThreadPoolShutdown.NoStepSetsBack` | agent_engine/util/lock_free_thread_pool.cc:98-220 | No other step, not even a spurious wake-up or a producer that waits for room, raises it. |
| `LockFreeThreadPoolShutdown.UsefulStepsAreBounded` | agent_engine/util/lock_free_thread_pool.cc:98-220 | Hence no run from Stop on makes more useful steps than that distance. |
| `LockFreeThreadPoolShutdown.ShutdownCompletes` | agent_engine/util/lock_free_thread_pool.cc:98-111 | From every state after Stop there is a run within the distance after which all workers have exited, whatever producers are doing. |
| `LockFreeThreadPoolShutdown.StepKeepsDoomed` | agent_engine/util/lock_free_thread_pool.cc:98-182 | From Stop on the number of items nobody will take changes only when a producer that was inside before its test of the size, or waited for room, finds room. |
| `LockFreeThreadPoolShutdown.LeftoverExactly` | agent_engine/util/lock_free_thread_pool.cc:98-149 | When all have come to their end, what is left in the queue is what was doomed at Stop and what producers have put in since that found room after it; nothing is left if and only if both are none. Those producers are at most the ones that Stop found between their two tests or waiting. |
| `LockFreeThreadPoolShutdown.OnlyTheWaitingEnter` | agent_engine/util/lock_free_thread_pool.cc:113-125 | Over any run from Stop on each of those producers finds room at most once, and no other does. |
| `LockFreeThreadPoolShutdown.QuietLeftoverExactly` | agent_engine/util/lock_free_thread_pool.cc:98-111 | With no producer inside at Stop, what is left is the queue at Stop but for one item for each worker in its pop loop; nothing is left if and only if those are equally many. |
| `LockFreeThreadPoolShutdown.StopLeavesAnItem` | agent_engine/util/lock_free_thread_pool.cc:98-111 | A whole run in which a pool is given an item, stops, joins its worker, and the item is still queued. |
| `LockFreeThreadPoolShutdown.CaughtPushLeavesAnItem` | agent_engine/util/lock_free_thread_pool.cc:98-149 | A whole run in which the queue is empty at Stop and nobody waits for room, and an item is queued when all have come to their end. |
| `PacketQueues.OrderedPacketQueue.constructor` | agent_engine/network/anet/packetqueue.cpp:23-27 | A new queue is valid and empty. |
| `PacketQueues.OrderedPacketQueue.FindLater` | agent_engine/network/anet/orderedpacketqueue.cpp:64-69 | The scan stops at the first packet due strictly later, all before it being due no later. |
| `PacketQueues.OrderedPacketQueue.Push` | agent_engine/network/anet/orderedpacketqueue.cpp:40-72 | Relinking in place puts the packet behind all that are due no later; head, tail, size, chain and order stay right, and the nodes are the old ones and the packet. |
| `PacketQueues.OrderedPacketQueue.Pop` | agent_engine/network/anet/packetqueue.cpp:41-52 | The first packet leaves, or null comes from an empty queue; the rest stays a valid queue. |
| `PacketQueues.OrderedPacketQueue.MoveBack` | agent_engine/network/anet/orderedpacketqueue.cpp:76-128 | The in-place merge of two linked queues is the merge of their contents, source first among equals; it uses exactly the nodes of both and empties the source. |
| `PacketQueues.OrderedPacketQueue.MoveTo` | agent_engine/network/anet/orderedpacketqueue.cpp:74-74 | The same merge into the other queue. |
| `PacketQueues.OrderedPacketQueue.GetTimeoutList` | agent_engine/network/anet/packetqueue.cpp:99-125 | Exactly the prefix that is past its deadline is cut off as a list of its own; the rest stays a valid queue. |
| `PacketQueues.MergeChains` | agent_engine/network/anet/orderedpacketqueue.cpp:98-126 | Two sorted chains, neither empty, are relinked into one that lists the merge of their entries; its last node is the last of the chain that is told. |
| `PacketQueues.InsertKeepsSorted` | agent_engine/network/anet/orderedpacketqueue.cpp:40-72 | Insertion keeps the deadline order. |
| `PacketQueues.MergeKeepsSorted` | agent_engine/network/anet/orderedpacketqueue.cpp:76-128 | The merge of sorted queues is sorted. |
| `PacketQueues.MergeCounts` | agent_engine/network/anet/orderedpacketqueue.cpp:76-128 | The merge loses and repeats nothing. |
| `PacketQueues.MergeSourceFirst` | agent_engine/network/anet/orderedpacketqueue.cpp:91-96 | Where the source is due no later than the destination, prepending it whole is the merge. |
| `PacketQueueRuns.InsertKeepsOrdered` | agent_engine/network/anet/orderedpacketqueue.cpp:40-72 | A newer packet inserted keeps deadline order with posting order among equals, and adds exactly itself. |
| `PacketQueueRuns.MergeKeepsOrdered` | agent_engine/network/anet/orderedpacketqueue.cpp:76-128 | Putting older packets back into a queue of newer ones keeps posting order among equal deadlines. |
| `PacketQueueRuns.TimeoutTakesExactlyExpired` | agent_engine/network/anet/packetqueue.cpp:99-125 | A packet is in the part that times out if and only if its deadline has passed. |
| `PacketQueueRuns.TimeoutsTakeExpired` | agent_engine/network/anet/packetqueue.cpp:99-125 | In every run a timeout takes exactly the queued packets past their deadline, in order, and leaves the others in theirs. |
| `PacketQueueRuns.StepKeepsInv` | agent_engine/network/anet/tcpconnection.cpp:64-183 | Posting, starting, continuing and ending a write cycle and timing out keep order, seniority and the sum of packets. |
| `PacketQueueRuns.QueueIsFairOverAllRuns` | agent_engine/network/anet/tcpconnection.cpp:66-144 | Over every run the posted packets are those queued, those in the write cycle and those that left, with multiplicity; both queues are sorted; packets of equal deadline leave in posting order across all write cycles. |
| `ChannelPool.CreateChannelId` | agent_engine/network/anet/channelpool.cpp:237-252 | An automatic id is the first successor of the global counter, at most three steps on, whose low half is none of the special ids; other ids are returned as they are and leave the counter. |
| `ChannelPool.IdsStayDistinct` | agent_engine/network/anet/channelpool.cpp:237-252 | Ids issued within a third of the 60-bit id space differ, through every wrap of the counter. |
| `ChannelPool.BuildCluster` | agent_engine/network/anet/channelpool.cpp:60-76 | A new cluster is one channel to lend and 63 others in a doubly linked list. |
| `ChannelPool.Unlink` | agent_engine/network/anet/channelpool.cpp:103-118 | Relinking the neighbours leaves the doubly linked list without the one channel. |
| `ChannelPool.LinkAt` | agent_engine/network/anet/channelpool.cpp:204-233 | Linking between two neighbours, or at an end, gives the doubly linked list with the channel at that place. |
| `ChannelPool.Pool.constructor` | agent_engine/network/anet/channelpool.cpp:41-47 | A new pool satisfies the pool invariant, with no clusters. |
| `ChannelPool.Pool.AllocChannel` | agent_engine/network/anet/channelpool.cpp:57-89 | Lends the first free channel, or one of a new cluster of 64, under an id issued as above; keeps the pool invariant: every channel of every cluster is in exactly one of free list, waiting list, outstanding, detached; id map and waiting list agree; the waiting list is sorted and doubly linked; use count is outstanding plus waiting. |
| `ChannelPool.Pool.FreeChannel` | agent_engine/network/anet/channelpool.cpp:91-101 | A waiting or outstanding channel goes to the end of the free list; only it leaves its old place and the id map; the use count drops by one; the invariant stays. |
| `ChannelPool.Pool.FreeWaitingChannel` | agent_engine/network/anet/channelpool.cpp:103-118 | Takes the channel out of the waiting list and its id out of the map, and nothing else. |
| `ChannelPool.Pool.RecycleChannel` | agent_engine/network/anet/channelpool.cpp:120-130 | Appends the channel to the doubly linked free list. |
| `ChannelPool.Pool.FindChannel` | agent_engine/network/anet/channelpool.cpp:132-141 | What is found waits under that id; and while no two waiting channels share an id, null means that none waits under it. |
| `ChannelPool.Pool.GetTimeoutList` | agent_engine/network/anet/channelpool.cpp:143-171 | Detaches exactly the waiting channels past their deadline, in order, as a doubly linked list of their own, out of the id map and the use count; the invariant stays. |
| `ChannelPool.Pool.AppendFreeList` | agent_engine/network/anet/channelpool.cpp:173-193 | A detached list goes to the end of the free list in one splice; the invariant stays. |
| `ChannelPool.Pool.AddToWaitingList` | agent_engine/network/anet/channelpool.cpp:195-235 | With a deadline the channel enters the waiting list behind all that are due no later and before all due later, and the id map, where it displaces one of the same id; without one it stays outstanding; the invariant stays. All waiting channels can still be found by id if and only if they could before and the id was not waiting. |
| `ChannelPool.Pool.FindPlace` | agent_engine/network/anet/channelpool.cpp:204-216 | The scan finds the place behind all that are due no later and before all due later. |
| `ChannelPool.InsertedComplete` | agent_engine/network/anet/channelpool.cpp:195-235 | Entering a channel leaves every waiting channel to be found by its id if and only if that was so before and the id is new. |
| `ConnectionRuns.StepKeepsConserved` | agent_engine/network/anet/connection.cpp:94-374 | Every step of post, write, reply, timeout, close and reopen keeps each accepted packet in exactly one place; the hands of a reply, check or close about to run its handler are such a place. |
| `ConnectionRuns.StepKeepsEnds` | agent_engine/network/anet/connection.cpp:222-374 | Packets end where they should: handlers run only for packets that have one, and only packets without a deadline are left outstanding for good. |
| `ConnectionRuns.StepKeepsClosing` | agent_engine/network/anet/connection.cpp:361-374 | From the end of a close until a reopen nothing is queued, being written or waiting. |
| `ConnectionRuns.StepKeepsCounted` | agent_engine/network/anet/connection.cpp:125-167 | The use count is the number of packets that own a channel, through every step. |
| `ConnectionRuns.HandlersRunAtMostOnce` | agent_engine/network/anet/connection.cpp:222-374 | In every run the handler of a packet runs at most once, and only for accepted packets with a handler. |
| `ConnectionRuns.ClosedConnectionHandledAll` | agent_engine/network/anet/connection.cpp:361-374 | After a finished close without reopen an accepted packet with a handler has been handled exactly once if and only if no reply, check or close has it in hand and it was not written without a deadline; with no call inside and a deadline it has always been. |
| `ConnectionRuns.LostExactly` | agent_engine/network/anet/connection.cpp:222-374 | In every run the channels that stay outstanding for good are exactly those of packets written with a handler and without a deadline; their handler has not run, and no call has them in hand. |
| `ConnectionRuns.LostIsNeverHandled` | agent_engine/network/anet/connection.cpp:222-374 | Once such a packet is written its handler runs in no continuation of the run, with any replies, checks, closes and reopens. |
| `ConnectionRuns.ClosedBeforeHandled` | agent_engine/network/anet/connection.cpp:264-374 | A run in which the close has finished while a timeout check holds the packet, whose handler has not run. |
| `ConnectionRuns.ClosedBeforeReplied` | agent_engine/network/anet/connection.cpp:222-374 | A run in which the close has finished while a reply has taken the packet off its channel and not yet run its handler. |
| `ConnectionRuns.ClosedWithoutDeadline` | agent_engine/network/anet/connection.cpp:264-374 | A run in which a written packet with a handler and no deadline is left over by a finished close, with no call inside. |
| `ConnectionRuns.CloseMayFinishFirst` | agent_engine/network/anet/connection.cpp:361-374 | With nothing queued or waiting a close runs to its end at once, whatever checks that began earlier hold. |
| `ConnectionRuns.UseCountStaysBelowLimit` | agent_engine/network/anet/connection.cpp:125-167 | Under a fixed queue limit the channels in use never exceed it, in any run. |
| `ConnectionRuns.RepliesFindTheirPacket` | agent_engine/network/anet/connection.cpp:222-262 | In every reachable state a reply takes the waiting packet of its id, which waits no more, and runs exactly its handler. |
| `ConnectionOrder.CheckTakesExpired` | agent_engine/network/anet/connection.cpp:264-300 | In every run a timeout check takes exactly the waiting packets past their deadline, in their order, leaves the others waiting in theirs, and does nothing else. |
| `ConnectionOrder.CheckTakesExpiredPackets` | agent_engine/network/anet/connection.cpp:302-305 | Then it takes exactly the queued packets past the same time. |
| `ConnectionOrder.CloseTakesAll` | agent_engine/network/anet/connection.cpp:361-374 | A close takes all that waits, and closes the connection. |
| `ConnectionOrder.NothingTimesOutEarly` | agent_engine/network/anet/connection.cpp:264-359 | In every run a handler is run only with a reply, or by a check for a time past the packet's deadline. |
| `ConnectionOrder.PacketsAreWrittenInTurn` | agent_engine/network/anet/connection.cpp:94-374 | In every run, with timeouts, closes and reopens, packets of equal deadline are written in posting order, and queue and waiting list are in order. |
| `ConnectionOrder.PostsAreAcceptedExactly` | agent_engine/network/anet/connection.cpp:94-167 | In every run a packet is accepted, and queued, exactly when the connection has not been closed since it was last opened and, if there is a limit, fewer channels are in use; otherwise nothing happens. |
| `ConnectionOrder.ClosedExactly` | agent_engine/network/anet/connection.cpp:361-374 | A connection is closed exactly when the last close came after the last reopen. |
| `ConnectionOrder.UnknownRepliesAreDropped` | agent_engine/network/anet/connection.cpp:240-247 | A reply that finds no waiting packet of its id changes nothing. |
| `Crc32c.TableIsStep8` | agent_engine/network/anet/crc.cpp:29-58 | Each of the 256 table constants is eight steps of the bit-serial register. |
| `Crc32c.UpdateIsStep8` | agent_engine/network/anet/crc.cpp:60-66 | One table look-up is eight bit-serial steps, for every register and byte. |
| `Crc32c.Lookup` | agent_engine/network/anet/crc.cpp:60-66 | The table loop computes the bit-serial checksum of every input. |
| `Crc32c.SerialConcat` | agent_engine/network/anet/crc.cpp:60-66 | The checksum of two pieces is that of the second, started from the first's. |
| `Crc32c.SerialLinear` | agent_engine/network/anet/crc.cpp:60-66 | The checksum is linear: start value and bytes combined bit by bit give the checksums so combined. |
| `Crc32c.BurstIsDetected` | agent_engine/network/anet/crc.cpp:60-66 | Changing up to four consecutive bytes anywhere in any input changes the checksum. |
| `Crc32cPolynomial.PolynomialBits` | agent_engine/network/anet/crc.cpp:29-58 | The reflected register constant has exactly the coefficients of the polynomial of section 12.1 of RFC 3720. |
| `Crc32cPolynomial.StepValue` | agent_engine/network/anet/crc.cpp:60-66 | A register step is multiplication by x modulo that polynomial. |
| `Crc32cPolynomial.ChecksumIsRemainder` | agent_engine/network/anet/crc.cpp:60-66 | The checksum from start value 0 is the remainder of the message times x^32 divided by the polynomial: a quotient is given, and the degree is below 32. |
| `DataBuffers.ValueOfWord` | agent_engine/network/anet/databuffer.h:121-191 | Reading the four big-endian bytes of a 32-bit number gives the number. |
| `DataBuffers.WordOfValue` | agent_engine/network/anet/databuffer.h:121-191 | Every four bytes are those of the number they read as. |
| `DataBuffers.DataBuffer.EnsureFree` | agent_engine/network/anet/databuffer.h:241-274 | Allocating, compacting or growing makes the room asked for and keeps the contents. |
| `DataBuffers.DataBuffer.Grow` | agent_engine/network/anet/databuffer.h:254-268 | The growth loop, over real numbers, ends with enough room and the data copied to a new array. |
| `BufferGrowth.GrownSize` | agent_engine/network/anet/databuffer.h:254-258 | The growth loop in single precision, with every result rounded to 24 bits, ends, and with enough room for every capacity as long as data and need are at most 2^24 bytes each. |
| `BufferGrowth.EnoughIsEnough` | agent_engine/network/anet/databuffer.h:254-258 | Within those bounds the rounded test of the loop is right for every size that rounding can give. |
| `BufferGrowth.GrowsTooLittle` | agent_engine/network/anet/databuffer.h:254-258 | With a need of 2^24 + 1, and with as much data, sizes that are one byte too small. |
| `DataBuffers.DataBuffer.Compact` | agent_engine/network/anet/databuffer.h:269-273 | Moving the data to the front of the same array, over itself, keeps it. |
| `DataBuffers.DataBuffer.Shrink` | agent_engine/network/anet/databuffer.h:84-106 | Shrinking keeps the contents in an array of exactly their size. |
| `DataBuffers.DataBuffer.DrainData` | agent_engine/network/anet/databuffer.h:61-70 | Removes up to len bytes from the front; asking for more than there are empties the buffer. |
| `DataBuffers.DataBuffer.StripData` | agent_engine/network/anet/databuffer.h:77-81 | Removes the last len bytes. |
| `DataBuffers.DataBuffer.WriteBytes` | agent_engine/network/anet/databuffer.h:153-157 | Appends exactly the given bytes, whatever moves the buffer makes. |
| `DataBuffers.DataBuffer.WriteInt32` | agent_engine/network/anet/databuffer.h:121-131 | Appends the big-endian bytes of the number. |
| `DataBuffers.DataBuffer.FillInt32` | agent_engine/network/anet/databuffer.h:159-167 | Overwrites four bytes inside the contents and no others. |
| `DataBuffers.DataBuffer.ReadInt32` | agent_engine/network/anet/databuffer.h:181-191 | Reads and removes a number from the front. |
| `AnetFrames.MarkRoundTrip` | agent_engine/network/anet/advancepacket.h:268-285 | A packet code with bit 15 clear is marked by encoding and restored by cleaning up. |
| `AnetFrames.ChannelIdRoundTrip` | agent_engine/network/anet/advancepacket.h:235-253 | Every 60-bit channel id survives its split over the packet and the extended header. |
| `AnetFrames.AdvanceRoundTrip` | agent_engine/network/anet/advancepacket.h:338-463 | Reading the 16 bytes of an extended header gives all its fields back. |
| `AnetFrames.SealHolds` | agent_engine/network/anet/advancepacket.h:338-394 | The checksum that encoding writes into its own cleared field passes the test of decoding. |
| `AnetFrames.DrainLater` | agent_engine/network/anet/defaultpacketstreamer.cpp:129-164 | Processing what is there and then what comes later gives what all of it together gives, from every reader state. |
| `AnetFrames.FragmentationDoesNotMatter` | agent_engine/network/anet/defaultpacketstreamer.cpp:129-164 | For every stream, well-formed or not, and every way of cutting it, the packets, errors and final state are the same. |
| `AnetFrames.FrameIsTaken` | agent_engine/network/anet/defaultpacketstreamer.cpp:82-164 | A frame in front of any bytes delivers its packet, consumes exactly its length, and leaves the rest to be read as if it were first. |
| `AnetFrames.FramesRoundTrip` | agent_engine/network/anet/defaultpacketstreamer.cpp:82-164 | Any sequence of packets, encoded and cut into any pieces, is delivered in order, and nothing is left over. |
| `AnetFrames.DeliveredFields` | agent_engine/network/anet/advancepacket.h:235-253 | What is delivered has the sender's body, 60-bit channel id, packet code, time to live, priority and version. |
| `AnetFrames.StoredIsRegister` | agent_engine/network/anet/advancepacket.h:376-391 | A stored word is that of a register exactly when its bits are the register. |
| `AnetDamage.ChecksumDetects` | agent_engine/network/anet/advancepacket.h:376-391 | A change of up to four consecutive bytes changes the stored checksum word. |
| `AnetDamage.DamageExactly` | agent_engine/network/anet/advancepacket.h:409-442 | Of a sealed payload, any other bytes of the same length pass the test if and only if their flags ask for no checksum, or let a zero word pass, or the checksum of the difference is the difference of the stored words. |
| `AnetDamage.DamageIsRejected` | agent_engine/network/anet/advancepacket.h:397-463 | For every packet and every other payload of its length the reader reports it bad if and only if that condition fails; in both cases exactly its bytes are dropped. |
| `AnetDamage.OneSideIsNotCompensated` | agent_engine/network/anet/advancepacket.h:409-442 | A change of up to four consecutive bytes on one side of the edge of the checksum field is never made up for. |
| `AnetDamage.OneSideIsRejected` | agent_engine/network/anet/advancepacket.h:409-442 | Such a change passes if and only if the damaged flags ask for no checksum, or let a zero word pass. |
| `AnetDamage.OneSideBesideFlagsIsRejected` | agent_engine/network/anet/advancepacket.h:409-442 | It never passes where it leaves the flags byte alone. |
| `AnetDamage.AcrossTheEdgePasses` | agent_engine/network/anet/advancepacket.h:409-442 | In every packet with a body of four bytes, a change of bytes 3 to 6 that passes. |
| `AnetDamage.FlagsDamagePasses` | agent_engine/network/anet/advancepacket.h:409-442 | In every packet, a change of one bit in the flags that passes. |
| `AnetDamage.UncheckedIsTaken` | agent_engine/network/anet/advancepacket.h:409-442 | With checking off, any payload of the announced length is taken. |
| `AnetLayout.FrameLayout` | agent_engine/network/anet/defaultpacketstreamer.cpp:82-127 | Flag, channel id, packet code, length and payload of a frame at their places in network order. |
| `AnetLayout.AdvanceLayout` | agent_engine/network/anet/advancepacket.h:338-394 | The same for the extended header. |
| `AnetLayout.BadInfoBreaks` | agent_engine/network/anet/defaultpacketstreamer.cpp:42-64 | Behind any frames, in any pieces, a packet info with another flag or a length above the limit breaks the stream. |
| `AnetLayout.GoodInfoIsTaken` | agent_engine/network/anet/defaultpacketstreamer.cpp:42-64 | Any other is taken, and its payload waited for. |
| `AnetStreamer.EncodeAdvanced` | agent_engine/network/anet/advancepacket.h:338-394 | Writing, then filling in the checksum, appends the sealed extended header and body. |
| `AnetStreamer.Encode` | agent_engine/network/anet/defaultpacketstreamer.cpp:82-127 | Writing a frame with its length and code filled in afterwards appends exactly the frame of the specification. |
| `AnetStreamer.VerifyChecksum` | agent_engine/network/anet/advancepacket.h:397-442 | Clearing the field in place, summing and restoring it decides the specification's checksum test, and leaves the buffer as it was when the test passes. |
| `AnetStreamer.DecodePacket` | agent_engine/network/anet/advancepacket.h:397-463 | Decoding from the buffer gives the specification's outcome and removes exactly the payload. |
| `AnetStreamer.ReadPacketInfo` | agent_engine/network/anet/defaultpacketstreamer.cpp:42-64 | Reads the packet info, and calls it good exactly for the right flag and a length within the limit. |
| `AnetStreamer.Reader.ProcessData` | agent_engine/network/anet/defaultpacketstreamer.cpp:129-164 | One call is one step of the reader machine. |
| `AnetStreamer.Reader.ReadData` | agent_engine/network/anet/tcpconnection.cpp:185-258 | The read loop, through a growing and compacting buffer, drains the reader machine fed with what the socket gave. |
| `DirectFrames.DrainLater` | agent_engine/network/anet/directpacketstreamer.cpp:137-230 | Reading now and later gives what reading together gives, from every state including a half-filled payload. |
| `DirectFrames.FragmentationDoesNotMatter` | agent_engine/network/anet/directpacketstreamer.cpp:137-230 | For every stream and every way of cutting it the packets and the final state are the same. |
| `DirectFrames.InfoRoundTrip` | agent_engine/network/anet/directpacketstreamer.cpp:232-262 | The packet info of a direct frame reads back. |
| `DirectFrames.FrameIsTaken` | agent_engine/network/anet/directpacketstreamer.cpp:50-230 | A frame in front of any bytes rebuilds its message and payload and leaves the rest. |
| `DirectFrames.FramesRoundTrip` | agent_engine/network/anet/directpacketstreamer.cpp:50-230 | Any sequence of packets whose payloads fit their placeholders, in any pieces, comes out as sent. |
| `DirectLayout.FrameLayout` | agent_engine/network/anet/directpacketstreamer.cpp:50-135 | The fields of a direct frame at their places in network order. |
| `DirectLayout.BadInfoBreaks` | agent_engine/network/anet/directpacketstreamer.cpp:232-262 | Behind any frames, in any pieces, another flag or version, or a length above the limit, breaks the stream. |
| `DirectLayout.UnplacedPayloadBreaks` | agent_engine/network/anet/directpacketstreamer.cpp:172-214 | So does a payload for which there is no memory, or too little. |
| `DirectConnection.Encode` | agent_engine/network/anet/directpacketstreamer.cpp:50-135 | The buffer gets the frame without its payload, and the payload is handed on to be sent directly, if there is one. |
| `DirectConnection.Writer.SendBuffer` | agent_engine/network/anet/directtcpconnection.cpp:278-290 | Any partial write of the buffer keeps wire, buffer and unsent payload together equal to the frames of the packets taken so far. |
| `DirectConnection.Writer.SendPayload` | agent_engine/network/anet/directtcpconnection.cpp:292-306 | Any partial write of the payload keeps that equality. |
| `DirectConnection.Writer.TakePacket` | agent_engine/network/anet/directtcpconnection.cpp:90-97 | Taking the next packet adds its whole frame to that equality. |
| `DirectConnection.Writer.WriteData` | agent_engine/network/anet/directtcpconnection.cpp:62-139 | After every call that succeeds, under any partial writes, wire, buffer and unsent payload are the frames of the packets taken so far, in order; no packet of the queue is lost; a call that fails leaves nothing to send. |
| `DirectConnection.Reader.TakeInfo` | agent_engine/network/anet/directpacketstreamer.cpp:137-154 | Reading a packet info is a step of the specification machine. |
| `DirectConnection.Reader.TakeMessage` | agent_engine/network/anet/directpacketstreamer.cpp:155-170 | Reading the message is a step of the machine. |
| `DirectConnection.Reader.TakePayload` | agent_engine/network/anet/directpacketstreamer.cpp:172-214 | Copying buffered bytes into the placeholder is a step of the machine, whose payload is what the placeholder holds. |
| `DirectConnection.Reader.ProcessAll` | agent_engine/network/anet/directtcpconnection.cpp:210-237 | The inner loop drains the machine. |
| `DirectConnection.Reader.ReadBuffer` | agent_engine/network/anet/directtcpconnection.cpp:196-237 | A read into the buffer drains the machine fed with the bytes. |
| `DirectConnection.Reader.ReadDirect` | agent_engine/network/anet/directtcpconnection.cpp:214-237 | A read straight into the placeholder, past the buffer, has the same effect as one through the buffer. |
| `HttpText.TakeWrittenLine` | agent_engine/network/anet/httpstreamer.cpp:526-550 | A text without line feeds, written with CR LF, is found as a line of that text. |
| `HttpText.DecimalOfDigits` | agent_engine/network/anet/httppacket.cpp:393-397 | Printed decimal numbers read back. |
| `HttpText.HexOfHexDigits` | agent_engine/network/anet/httpstreamer.cpp:351-398 | Hexadecimal chunk sizes read back. |
| `HttpLines.LinesExactly` | agent_engine/network/anet/httpstreamer.cpp:526-550 | A line ends at the first line feed, and a carriage return right before it is not part of it. |
| `HttpLines.RequestsExactly` | agent_engine/network/anet/httpstreamer.cpp:150-200 | A line is taken for a request exactly when it consists of a method of token characters, a target within the limit and a supported version, apart by spaces. |
| `HttpLines.RequestIsParsed` | agent_engine/network/anet/httpstreamer.cpp:150-200 | Then it gives that method, target and version. |
| `HttpLines.StatusLinesExactly` | agent_engine/network/anet/httpstreamer.cpp:202-260 | A line is taken for a status line exactly when it consists of a supported version, three digits and, if any, a reason, apart by spaces. |
| `HttpLines.StatusIsParsed` | agent_engine/network/anet/httpstreamer.cpp:202-260 | Then it gives that version, status and reason; a status outside 100 to 599 is none. |
| `HttpLines.HeaderLinesExactly` | agent_engine/network/anet/httpstreamer.cpp:552-574 | A line without a colon adds no header; one with a colon adds the name before the first colon with the value behind it, without spaces around it. |
| `HttpLines.SizesExactly` | agent_engine/network/anet/httpstreamer.cpp:351-376 | Which lines give a chunk size, and which: hexadecimal digits behind spaces, before the end or a semicolon, below 2^31. |
| `HttpFragments.StepKinds` | agent_engine/network/anet/httpstreamer.cpp:64-111 | Every step of the parser is either the same with more bytes behind it or made up for by the next one, but for the step at a carriage return behind a chunk. |
| `HttpFragments.FragmentationExactly` | agent_engine/network/anet/httpstreamer.cpp:400-437 | A stream, good or bad, is read the same in all pieces if and only if no carriage return behind a chunk, followed by other than a line feed, can be hidden by a cut so that reading goes on or delivers more. |
| `HttpFragments.ShowingCut` | agent_engine/network/anet/httpstreamer.cpp:400-437 | Where that condition fails, a way of cutting the stream that changes the result. |
| `HttpFragments.FragmentationDoesNotMatter` | agent_engine/network/anet/httpstreamer.cpp:64-111 | Every stream accepted in one piece gives the same messages and state in any pieces. |
| `HttpParser.StepAccounts` | agent_engine/network/anet/httpstreamer.cpp:287-303 | Every step adds to the drained length what it takes from the buffer, and keeps a body of known size within the package limit. |
| `HttpParser.DrainStaysWithinLimit` | agent_engine/network/anet/httpstreamer.cpp:287-437 | Draining any buffer keeps the limit, and no delivered body exceeds it. |
| `HttpParser.ReceiveStaysWithinLimit` | agent_engine/network/anet/httpstreamer.cpp:313-437 | In every state reached by any pieces a length or chunked body is within the limit and within the bytes drained, and so is every delivered body. |
| `HttpMessages.StartRoundTrip` | agent_engine/network/anet/httppacket.cpp:338-377 | A printed request line or status line parses to the same method, target, version, status and reason; section 3.1 of RFC 7230. |
| `HttpMessages.FieldRoundTrip` | agent_engine/network/anet/httpstreamer.cpp:552-574 | A printed header line parses to its name and value; section 3.2 of RFC 7230. |
| `HttpMessages.HeaderMapHas` | agent_engine/network/anet/httppacket.cpp:167-211 | Headers of different names are all found, under their names without regard to case, as they were spelled. |
| `HttpMessages.LengthIsKnown` | agent_engine/network/anet/httpstreamer.cpp:477-524 | A printed message announces the length of its body and no transfer coding, whether or not the caller set the length; section 3.3.3 of RFC 7230. |
| `HttpMessages.MessageIsTaken` | agent_engine/network/anet/httpstreamer.cpp:64-111 | A printed message in front of any bytes delivers start line, headers and body, and leaves the rest to be read as if it were first. |
| `HttpMessages.MessagesRoundTrip` | agent_engine/network/anet/httppacket.cpp:334-407 | Any sequence of well-formed messages, printed and cut into any pieces, parses to the same messages, and nothing is left over. |
| `HttpMessages.ChunkedIsTaken` | agent_engine/network/anet/httpstreamer.cpp:313-398 | A chunked body in front of any bytes decodes to its chunks in order, its trailers join the headers, and the rest is left. |
| `HttpMessages.ChunkedRoundTrip` | agent_engine/network/anet/httpstreamer.cpp:313-437 | A chunked body with trailers in any pieces decodes to the concatenation of its chunks; section 4.1 of RFC 7230. |
| `HttpHeads.HeadersAreRead` | agent_engine/network/anet/httpstreamer.cpp:64-148 | A printed head brings the parser to the empty line with exactly that message begun, and reading goes on from there in any pieces. |
| `HttpHeads.RequestWithoutBody` | agent_engine/network/anet/httpstreamer.cpp:477-491 | A printed request that announces no length is delivered with an empty body, and what follows is read as if first. |
| `HttpHeads.RequestsRoundTrip` | agent_engine/network/anet/httpstreamer.cpp:477-491 | Any number of such requests, in any pieces, are delivered, and nothing is left over. |
| `HttpHeads.ResponseUntilTheEnd` | agent_engine/network/anet/httpstreamer.cpp:305-311 | A printed response that announces no length is not delivered: all that follows, in any pieces, is kept as its body. |
| `HttpHeads.HeadsAreRefusedExactly` | agent_engine/network/anet/httpstreamer.cpp:477-524 | A printed head breaks the stream, in any pieces and whatever follows, exactly when it has a transfer coding other than chunked or, without one, a length that is no number below 2^31 or does not fit the limit. |
| `HttpHeads.BadStartIsRefused` | agent_engine/network/anet/httpstreamer.cpp:117-148 | A start line that does not parse, or is too long, breaks the stream in any pieces. |
| `HttpHeads.EndlessLineIsRefused` | agent_engine/network/anet/httpstreamer.cpp:117-131 | So does a line that has not ended when the limit is passed. |
| `HttpHeads.TooManyHeadersAreRefused` | agent_engine/network/anet/httpstreamer.cpp:439-475 | So does the header after the 128th. |
| `HttpChunked.HeadIsTaken` | agent_engine/network/anet/httpstreamer.cpp:64-148 | The printed head of a chunked message, in front of any bytes, leaves the parser at the first chunk size with exactly that message begun. |
| `HttpChunked.ChunkedMessageRoundTrip` | agent_engine/network/anet/httpstreamer.cpp:64-437 | A whole chunked message, from its start line on to its trailers, in any pieces, is delivered with all its chunks as body and its trailers among the headers, and nothing is left over; section 4.1 of RFC 7230. |
| `HttpChunked.LineFeedEndsChunk` | agent_engine/network/anet/httpstreamer.cpp:400-437 | A chunk may end in a line feed alone. |
| `HttpChunked.OtherBytesBreakChunk` | agent_engine/network/anet/httpstreamer.cpp:400-437 | Any byte behind a chunk but a line feed or carriage return breaks the stream, in any pieces. |
| `HttpChunked.SplitMatters` | agent_engine/network/anet/httpstreamer.cpp:400-437 | For every head and chunk, the message with CR CR LF behind the chunk stops the parser in one piece and is delivered when cut after the first byte. |
| `HttpReader.FindLine` | agent_engine/network/anet/httpstreamer.cpp:526-550 | The scanning loop finds the first line, with or without a carriage return, or none. |
| `HttpReader.Reader.ProcessLine` | agent_engine/network/anet/httpstreamer.cpp:115-148 | A complete line has the effect the parser machine gives it, at each kind of line. |
| `HttpReader.Reader.EndHeaders` | agent_engine/network/anet/httpstreamer.cpp:477-524 | How the body is delimited, and when a message is complete without one, is as in the machine. |
| `HttpReader.Reader.ProcessBody` | agent_engine/network/anet/httpstreamer.cpp:287-303 | As much of a length body or chunk as is there is moved from the buffer to the message. |
| `HttpReader.Reader.ProcessChunkEnd` | agent_engine/network/anet/httpstreamer.cpp:400-437 | The end of a chunk is read with the early decision on a lone carriage return. |
| `HttpReader.Reader.Step` | agent_engine/network/anet/httpstreamer.cpp:64-111 | A call makes progress exactly when the machine can, and then its step. |
| `HttpReader.Reader.ReadData` | agent_engine/network/anet/tcpconnection.cpp:185-258 | The read loop drains the parser machine fed with what the socket gave, through the growing buffer. |
| `HttpPrinter.Print` | agent_engine/network/anet/httppacket.cpp:334-407 | Appends the printed message, with a Content-Length unless there is one, or nothing where it refuses: a request without target, a response without status. |
| `ModuleLoading.LegalIsInOrder` | agent_engine/engine/common/module_manager.cc:101-163 | In a legal history the loaded modules are distinct, closed under dependencies, and each loaded after all it depends on. |
| `ModuleLoading.LoadIsLegal` | agent_engine/engine/common/module_manager.cc:101-131 | Loading from any legal history, through any dependency graph and any failures, stays legal, only adds modules, and on success has the module loaded. |
| `ModuleLoading.UnloadIsLegal` | agent_engine/engine/common/module_manager.cc:133-163 | Unloading stays legal, dependents first, only removes modules, and on success has the module unloaded. |
| `ModuleLoading.StartIsLegal` | agent_engine/engine/common/module_manager.cc:29-43 | Starting in any map order stays legal, and on success has all modules loaded. |
| `ModuleLoading.StopIsLegal` | agent_engine/engine/common/module_manager.cc:45-59 | Stopping in any map order stays legal, and on success has none loaded. |
| `ModuleLoading.CyclesAreNeverLoaded` | agent_engine/engine/common/module_manager.cc:101-131 | A module on a dependency cycle is loaded in no legal history. |
| `ModuleLoading.StartFailsOnCycles` | agent_engine/engine/common/module_manager.cc:29-43 | Start succeeds on no graph with a cycle, in no order and from no legal history. |
| `ModuleLoading.StartSucceeds` | agent_engine/engine/common/module_manager.cc:29-43 | When no dependency chain from a listed module is longer than 64 and all hooks succeed, Start succeeds, from every history. |
| `ModuleOrders.StartsInEveryOrder` | agent_engine/engine/common/module_manager.cc:29-43 | With all hooks working, Start succeeds in every order in which the maps can list the modules and their dependencies if and only if no chain is longer than 64 modules. |
| `ModuleOrders.LongChainFails` | agent_engine/engine/common/module_manager.cc:101-106 | Where one is longer, an order of the modules, each once, and of their dependencies in which Start fails, whatever the hooks do. |
| `ModuleOrders.ReversedWithin` | agent_engine/engine/common/module_manager.cc:133-163 | The graph of dependents has no longer chains than that of dependencies. |
| `ModuleOrders.StopSucceeds` | agent_engine/engine/common/module_manager.cc:45-59 | Hence Stop succeeds too, in every order and from every history, when all hooks work. |
| `ModuleOrders.StopUndoesStart` | agent_engine/engine/common/module_manager.cc:29-59 | Start and then Stop, each in its own order, both succeed, load everything and leave nothing. |
| `ModuleOrders.FailingHookFailsStart` | agent_engine/engine/common/module_manager.cc:29-43 | Start fails, from every legal history and in every order, if a module that is not loaded has a failing hook, and leaves it unloaded. |
| `ModuleOrders.FailingHookFailsStop` | agent_engine/engine/common/module_manager.cc:45-59 | Stop fails if a loaded module has a failing hook, and leaves it loaded. |
| `ModuleOrders.FailureStopsStart` | agent_engine/engine/common/module_manager.cc:29-43 | A start with failing hooks runs the hooks of one in which more of them work, in the same order, up to the first failure, and none after it. |
| `ModuleOrders.FailureStopsStop` | agent_engine/engine/common/module_manager.cc:45-59 | So does a stop. |
| `ModuleLoading.ChainsWithinBounds` | agent_engine/engine/common/module_manager.cc:101-106 | The depth condition of the previous result bounds the length of every dependency chain. |
| `ModuleLoading.LongChain` | agent_engine/engine/common/module_manager.cc:101-106 | Where the condition fails there is a chain one longer than the bound. |
| `ModuleManagers.ModuleManager.LoadModule` | agent_engine/engine/common/base_module.cc:24-35 | Loading runs the hook at most once, and fails exactly when an unloaded module's hook does. |
| `ModuleManagers.ModuleManager.UnloadModule` | agent_engine/engine/common/base_module.cc:37-48 | Unloading runs the hook only for a loaded module. |
| `ModuleManagers.ModuleManager.Load` | agent_engine/engine/common/module_manager.cc:101-131 | The recursive loading over flags and maps runs exactly the hooks of the specification. |
| `ModuleManagers.ModuleManager.Unload` | agent_engine/engine/common/module_manager.cc:133-163 | So does unloading. |
| `ModuleManagers.ModuleManager.Start` | agent_engine/engine/common/module_manager.cc:29-43 | A start that is needed and succeeds has every module loaded; one that is not needed runs no hook. |
| `ModuleManagers.ModuleManager.Stop` | agent_engine/engine/common/module_manager.cc:45-59 | A successful stop leaves nothing loaded if and only if the manager was running or nothing was loaded before. |
| `ModuleManagers.FailedStartLeavesModules` | agent_engine/engine/common/module_manager.cc:29-59 | A start that fails at the second module leaves the first loaded. |
| `Varint.EncodeLength` | agent_engine/util/legacy/astream.cpp:14-64 | A number of at most k groups of seven bits takes at most k bytes. |
| `Varint.EncodedBytes` | agent_engine/util/legacy/astream.cpp:14-43 | Byte i is the i-th group of seven bits from the lowest, with 128 added exactly at the last, which is the highest that is not zero. |
| `Varint.VarintRoundTrip` | agent_engine/util/legacy/astream.cpp:132-229 | Every 32-bit and 64-bit number, written in front of any bytes, is read back from exactly its own bytes. |
| `Varint.Put5` | agent_engine/util/legacy/astream.cpp:14-43 | The five-way branch writes the shortest encoding of every number below 2^35. |
| `Varint.WriteVarint64` | agent_engine/util/legacy/astream.cpp:45-64 | The 64-bit writer, split at 35 bits, writes the same encoding. |
| `Varint.ReadVarint` | agent_engine/util/legacy/astream.cpp:132-164 | The byte-wise reader decodes up to the first marked byte, and reports corruption exactly where none comes in time. |
| `LengthedStreams.Nest.Fetch` | agent_engine/util/legacy/astream.h:470-511 | Refilling through any number of nested streams keeps every window a view of the base at its position, and gives a non-empty window where the stream promises more; it throws never when each stream promises no more than what it is nested in. |
| `LengthedStreams.Nest.WithinReach` | agent_engine/util/legacy/astream.h:418-432 | No stream ever passes the end of anything it is nested in. |
| `LengthedStreams.Nest.Push` | agent_engine/util/legacy/astream.h:514-530 | A nested stream begins at the next byte of its parent and promises exactly len bytes, for every 32-bit length; it throws never when all streams are honest. |
| `LengthedStreams.Nest.Pop` | agent_engine/util/legacy/astream.h:628-633 | After a nested stream has been read to its end the parent goes on right behind it. |
| `LengthedStreams.Nest.Get` | agent_engine/util/legacy/astream.h:546-556 | The next byte of the base, across refills, or -1 exactly at the end of the innermost stream; where an enclosing stream or the base ends before, it throws. |
| `LengthedStreams.Nest.Read` | agent_engine/util/legacy/astream.h:597-616 | With fewer than 2^31 bytes left, exactly the next len bytes of the base, or all that remain, within everything that encloses the stream; with more, and only then, a copy of a negative number of bytes. When all around it are honest, reading a stream to its end succeeds if and only if it promised no more than its parent: otherwise it throws. |
| `LengthedStreams.Nest.SkipAt` | agent_engine/util/legacy/astream.h:580-595 | A skip, passed down through the nested streams without filling the buffer, moves the position by len, or to the first end among the enclosing streams and the base, if no stream it comes to has 2^31 bytes or more left; otherwise the cursor of one lands in front of its window. |
| `LengthedStreams.Nest.Skip` | agent_engine/util/legacy/astream.h:580-595 | The same for the innermost stream, with the number returned: position and streams are right if and only if the skip comes to no stream with 2^31 bytes or more left. |
| `LengthedStreams.Nest.ShortIsSkippable` | agent_engine/util/legacy/astream.h:580-595 | Where no stream has 2^31 bytes or more left every skip is of that kind. |
| `LengthedStreams.LongStream` | agent_engine/util/legacy/astream.h:580-616 | For every stream of 2^31 bytes or more that is all there, and every number of bytes asked for, the negative numbers that read and skip come to. |
| `LengthedStreams.Nest.ReadVarint` | agent_engine/util/legacy/astream.cpp:262-331 | A varint split over any refills gives what decoding the bytes within reach in one piece gives, and consumes exactly its bytes; it throws only where a stream promises too much. |
| `TcpComponents.StepKeepsInv` | agent_engine/network/anet/tcpcomponent.cpp:132-382 | Every event, check, close and reconnect keeps attempts and budget within 30 together, and no waiting to connect without budget. |
| `TcpComponents.StepsFromTheEnd` | agent_engine/network/anet/tcpcomponent.cpp:278-382 | CLOSED is never left; CLOSING is left only to CLOSED by a check that holds the last reference, or to CONNECTING by a manual reconnect with automatic reconnecting off. |
| `TcpTransitions.StatesChangeExactly` | agent_engine/network/anet/tcpcomponent.cpp:132-408 | In every run the state changes from each of the five states to each other exactly by the steps, and with the budgets, of a table. |
| `TcpTransitions.UserCloseIsFinal` | agent_engine/network/anet/tcpcomponent.cpp:189-202 | In every run a component closed by its user is closing or closed, and makes no automatic attempt, until a manual reconnect, for which automatic reconnecting must be off. |
| `TcpTransitions.AttemptsAreApart` | agent_engine/network/anet/tcpcomponent.cpp:315-345 | In every run an automatic attempt is made more than the interval after any attempt, and after any connect found to take too long, before it. |
| `TcpTransitions.ConnectingSince` | agent_engine/network/anet/tcpcomponent.cpp:315-321 | In every run without a manual reconnect that is too early, a connect is found overdue exactly when more than the timeout has passed since it began. |
| `TcpComponents.AttemptsAreBounded` | agent_engine/network/anet/tcpcomponent.cpp:315-408 | In every run at most 30 automatic attempts lie between two connections made. |
| `TcpComponents.NeverWaitsInVain` | agent_engine/network/anet/tcpcomponent.cpp:351-382 | In every run a component that waits to connect has budget left. |
| `TcpComponents.RefilledUnlessLast` | agent_engine/network/anet/tcpcomponent.cpp:204-382 | In every run an attempt that connects and then fails leaves the component reconnecting, with a full budget, if and only if it was not the last; else it goes to CLOSING. |
| `TcpComponents.AllAttemptsAreReached` | agent_engine/network/anet/tcpcomponent.cpp:315-345 | For every n below 30 a run in which n attempts in a row have failed and the component waits for the next. |
| `TcpComponents.LastAttemptEndsReconnecting` | agent_engine/network/anet/tcpcomponent.cpp:204-382 | A whole run whose last attempt succeeds, after which the next failure goes to CLOSING. |
| `TcpComponents.ProcessGivesLast` | agent_engine/network/anet/ioworker.cpp:145-212 | After the worker has processed its commands, the last one decides whether the component is on the list, whatever the list was. |
| `TcpComponents.StepKeepsRegistered` | agent_engine/network/anet/tcpcomponent.cpp:132-408 | Every step but a reconnect during the handlers of a close keeps the last command in agreement with the state. |
| `TcpComponents.ListedWhenInUse` | agent_engine/network/anet/tcpcomponent.cpp:132-408 | In every run without such a reconnect, and with no close under way, the worker will list the component exactly when it is connecting or connected. |
| `TcpComponents.TooEarlyIsUnlisted` | agent_engine/network/anet/tcpcomponent.cpp:132-202 | After such a reconnect the rest of the close takes the component off the list although it is in use. |
| `TcpComponents.TooEarlyIsReachable` | agent_engine/network/anet/tcpcomponent.cpp:132-202 | A run that leads to such a reconnect. |
| `TcpComponentObjects.TCPComponent.constructor` | agent_engine/network/anet/tcpcomponent.cpp:67-92 | A component after init is an initial state of the machine. |
| `TcpComponentObjects.TCPComponent.SetState` | agent_engine/network/anet/tcpcomponent.cpp:351-376 | The update of state and budget fields is the machine's; it reports no change exactly from CLOSED, and from CLOSING unless to CONNECTING or CLOSED; it calls the close hook exactly when the component leaves the states in use or waiting. |
| `TcpComponentObjects.TCPComponent.HandleWriteEvent` | agent_engine/network/anet/tcpcomponent.cpp:204-238 | A write event is the machine's step, and succeeds exactly when connecting or connected and written. |
| `TcpComponentObjects.TCPComponent.CheckTimeout` | agent_engine/network/anet/tcpcomponent.cpp:278-349 | A check is the machine's step, and gives the component up exactly when closing with one reference. |
| `TcpComponentObjects.TCPComponent.ReconnectByHand` | agent_engine/network/anet/tcpcomponent.cpp:132-168 | A manual reconnect is the machine's step, and succeeds exactly from CLOSING with automatic reconnecting off and the connect under way. |
| `TcpComponentObjects.TCPComponent.CloseAndSetState` | agent_engine/network/anet/tcpcomponent.cpp:378-382 | A close by the worker is the machine's, up to where its handlers run. |
| `TcpComponentObjects.TCPComponent.CloseByUser` | agent_engine/network/anet/tcpcomponent.cpp:194-202 | A close by the user leaves a component in use or waiting CLOSING, whatever its budget, with its handlers to run, and any other as it was; it is the machine's step. |
| `TcpComponentObjects.TCPComponent.ResumeClose` | agent_engine/network/anet/tcpcomponent.cpp:194-202 | The rest of a close, after its handlers, is the machine's step. |
| `TcpComponentObjects.TCPComponent.HandleErrorEvent` | agent_engine/network/anet/tcpcomponent.cpp:240-251 | An error closes the component if it is connecting or connected, and else does nothing. |
| `ComponentRefs.ProcessKeepsCount` | agent_engine/network/anet/ioworker.cpp:145-212 | Processing a command, with the references it takes for the list and gives back for itself, keeps every count. |
| `ComponentRefs.StepKeepsCount` | agent_engine/network/anet/ioworker.cpp:132-212 | Every step keeps each reference count equal to user references, list membership, pending commands and checking-list entries. |
| `ComponentRefs.RunsKeepCount` | agent_engine/network/anet/transport.cpp:205-300 | So does every run. |
| `ComponentRefs.DeletedIsUnlinked` | agent_engine/network/anet/iocomponent.cpp:102-114 | In every run nothing links to a deleted component: no user, list, command or checking list. |
| `ComponentRefs.LastHolderIsTheCheckingList` | agent_engine/network/anet/tcpcomponent.cpp:342-345 | In every run a checked component with count 1 is held by that one entry of the checking list alone, and dropping the entry deletes it. |
| `ComponentCommands.CommandsDoWhatTheySay` | agent_engine/network/anet/ioworker.cpp:157-171 | In every run processing a command leaves its component on the list exactly when it is an add, and all others where they were, in order. |
| `ComponentCommands.LastCommandDecides` | agent_engine/network/anet/ioworker.cpp:145-172 | In every run a component will be on the list, once all pending commands are processed, exactly when the last command ever posted for it is an add. |
| `ComponentCommands.PolledWhenInUse` | agent_engine/network/anet/tcpcomponent.cpp:194-408 | With none of its commands pending and no close under way, a TCP component is on the worker's list exactly when it is connecting or connected, unless a manual reconnect was too early. |
| `ComponentCommands.HandedOverIsChecked` | agent_engine/network/anet/transport.cpp:205-210 | In every run a component handed to the checking thread is on its list once it has collected. |
| `IoWorkers.IoWorker.LinkLast` | agent_engine/network/anet/ioworker.cpp:181-189 | Appending to the linked list, in place, keeps it doubly linked with the right head and tail, and adds exactly the component. |
| `IoWorkers.IoWorker.UnlinkAt` | agent_engine/network/anet/ioworker.cpp:199-209 | Unlinking, in place, keeps it so, and removes exactly the component, at either end or between. |
| `IoWorkers.IoWorker.AddComponent` | agent_engine/network/anet/ioworker.cpp:174-191 | Adding a component to the linked list, with its flag and its reference, is what the counting machine says; the flags stay those of the listed. |
| `IoWorkers.IoWorker.RemoveComponent` | agent_engine/network/anet/ioworker.cpp:193-212 | So is removing one, and a component whose last reference this was is deleted. |
| `IoWorkers.IoWorker.ProcessCommands` | agent_engine/network/anet/ioworker.cpp:145-172 | The loop over the commands leaves a component on the linked list exactly when the last command for it is an add, or it was and there is none; counts and flags are what the counting machine makes of them, and no command is left. |
| `IoWorkers.IoWorker.ProcessOne` | agent_engine/network/anet/ioworker.cpp:158-170 | One command, with the reference it held given back. |
| `IoWorkers.RemovedNumber` | agent_engine/network/anet/ioworker.cpp:199-209 | Unlinking at a place removes that component's number from the list of numbers. |

## Left out

- LockFreeQueueProgress.FailureMeansAnothersSuccess: a Pop also starts over after it has repaired a back link; how often stale writes of others can spoil the link again is not bounded here.
- LockFreeThreadPoolShutdown.ShutdownCompletes: the auto-scaler, a refused push of the inner queue and the wrap-around of 64-bit indices are not modelled.
- ChannelPool.Pool.AddToWaitingList: times are not negative; freeing a channel tests for a positive time where entering it tests for one other than 0.
- ChannelPool.Pool.AllocChannel: the global id counter, which all pools share, is the pool's own here; the ids of concurrent calls are those of the calls in the order of their increments.
- ConnectionRuns.HandlersRunAtMostOnce: packets of a server-side connection and the refusal of posts on a stalled connection (agent_engine/network/anet/connection.cpp:111-124) are not modelled; posts that block are posts made when they go through.
- AnetStreamer.DecodePacket: a payload shorter than the extended header that its packet code announces is read beyond its end by the code; here such a frame stops the reader.
- DataBuffers.DataBuffer.Grow: the growth factor is computed over real numbers where the code uses a float, so that the promised room may be missing in the code beyond 2^24 bytes of data or need (BufferGrowth.GrowsTooLittle); everything written to a buffer is modelled with the room it asked for. Sizes of 2^31 and more are not modelled.
- DirectConnection.Reader.TakeMessage: a negative message size stops the reader.
- HttpParser.ReceiveStaysWithinLimit: bodies that end with the connection have no limit in the code, and are left out.
- HttpMessages.MessagesRoundTrip: Content-Length values of 2^31 and more, chunk sizes of 2^31 and more or written with sign, prefix or inner white space, and disableContentLengthHeader are not modelled; such input stops the parser.
- LengthedStreams.Nest.Push: nothing is promised about the streams after an exception; peek, GetThenPeek, and reads and skips of a negative number of bytes are not modelled.
- LengthedStreams.Nest.ReadVarint: the innermost stream has not reached its end, as the code requires; only the innermost stream is used while it lives.
- ComponentRefs.StepKeepsCount: the teardown of transports (agent_engine/network/anet/ioworker.cpp:214-232) is left out.
- The return value of Push, the destructor of the queue, and the order of destruction anywhere.
- Null packets, channels and work items, which the code refuses or passes over at once.
- Sockets, epoll, DNS and address parsing: they are partial reads, partial writes and connect results chosen by the environment.
- The completion of an HTTP message at the end of the connection, addon headers of ANET packets, UDP and the legacy GET-only HTTP packets.
- Assembly variants of the checksum and their selection.
- gRPC wrappers, admin server and commands, statistics, logging, JSON helpers, string utilities, option parsing: they would add only easy members.
- Weak memory ordering, allocation failure and thread priorities.
