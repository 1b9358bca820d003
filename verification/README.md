# NTSocks in Dafny

NTSocks carries a socket byte stream from one host to another through shared memory and a PCIe
non-transparent bridge (NTB). A `nts_write` cuts its bytes into packets, takes a block of a shared
pool for each, and pushes the block's number onto an index ring. A proxy pops it and writes the
packet into a ring that lies in the other host's memory. The proxy there finds it, copies it into
a second pool and ring, and `nts_read` hands the bytes to the application and keeps what did not
fit. Two monitors set up each connection by a three-message handshake over TCP.

This project models that path and states what it guarantees, in every interleaving of the threads
and processes involved. It also covers the sequential structures the system is built on.

## How it is built

Code that several threads run at once is a state machine: a state, one label per atomic action, and
a total step function. An action is one access to shared memory. A label that is not enabled does
nothing, as a spinning thread does. A run is a sequence of labels, so a theorem about every
`schedule` is a theorem about every interleaving. Memory is sequentially consistent. The real
indices are reduced to the ring's capacity as in the code; the unbounded counts behind them, and
the histories of what went in and came out, live in a separate record that no step reads. What the
callers see is recorded apart from the steps' own work: the arguments from the labels of the run,
the results from the states before and after a step.

Code that one thread runs is a class or a method with the source's own loops. Its contract ties it
to a function on values, and lemmas say what that function means.

| file | models |
|---|---|
| `Options.dfy`, `RingIndex.dfy`, `BoundedQueue.dfy` | optional values; index arithmetic; the sequential FIFO queue that rings are compared with |
| `Spsc.dfy`, `ShmRing.dfy` | the lock-free single-producer single-consumer ring, concurrently and sequentially with its bulk operations |
| `MemPool.dfy`, `Channel.dfy` | the pool's free list; pool and ring composed, one process allocating while another frees |
| `Packets.dfy`, `Segments.dfy`, `Socket.dfy` | packets and connection names; cutting into packets; `nts_write` and `nts_read` |
| `NtbRing.dfy`, `MultiSlot.dfy` | the NTB data ring with its stale shadow index; messages of several slots |
| `Stream.dfy` | the whole data path, many connections sharing one NTB ring |
| `SemRing.dfy`, `DuplexRing.dfy` | the semaphore ring with any number of producers; the benchmark's four pointer placements |
| `MaskRing.dfy` | the ring behind a listener's backlog |
| `Ports.dfy`, `Handshake.dfy`, `Overflow.dfy`, `Routing.dfy` | port numbers and their linked free queue; the monitors' handshake, `nts_connect` and `nts_accept`; a message ring that is too small; the tables left to the data path |
| `HashTable.dfy`, `QuickSort.dfy` | hash map and sort |
| `SendList.dfy`, `SendRace.dfy` | the list of connections a sending thread serves; an append while that thread unlinks |

## Where the code does not do what one would expect

The model follows the code; the lemmas named state exactly when each case arises.

- The pool never clears the link of its last block. It is sound exactly while one block stays free
  (`MemPool.SparingOneIsSafe`, `MemPool.TakingTheLastIsFatal`); the sizes of ring and pool
  guarantee that (`Channel.AllocationNeverFails`).
- A sender on the NTB ring can block for good, with every packet read, if and only if the ring is
  no longer than the update interval (`NtbRing.StuckExactlyWhenSmall`).
- The bulk pop returns the smaller of what is asked and what is there if and only if the ring is not
  wrapped or holds more than asked (`ShmRing.PopCountIsMinimum`). Bulk operations silently clip
  counts above the capacity to capacity - 1. On a wrapped ring with one element it returns none and
  still writes a whole lap of elements, more than asked for (`ShmRing.WhenPopOverruns`).
- `nts_read` waits although it has bytes if and only if only full packets came and they are fewer
  bytes than asked. It fails, and loses those bytes, if and only if a FIN follows them
  (`Socket.WhenFromQueueReturns`; one such queue is in `Socket.FinLosesPacket`). A read on a stream
  socket is expected to return what has arrived (section 2.10.6 of POSIX.1-2017 System Interfaces).
- `nts_write` on a socket that is not ESTABLISHED jumps to its end before its count is set, and
  tests the count there. So it returns whatever that variable holds if it is positive, and -1 only
  otherwise (`Socket.NtSocket.Write`, whose parameter `stale` is that value).
- A refusal (no such listener, or its backlog is full) is only logged by the client's monitor, and
  the application is told nothing. Once nothing is on its way, an `nts_connect` that has sent its SYN
  still waits if and only if the SYN was refused, and then it waits for ever
  (`Handshake.WhenConnectHangs`, `Handshake.RefusedForGood`, `Handshake.RefusedConnectHangs`).
- The backlog's ring moves its indices by a bit mask. It holds one less than the largest power of two
  that divides the size asked for, so `nts_listen` with an odd backlog refuses every client
  (`MaskRing.MaskIsWrap`, `MaskRing.WhenRoomIsFull`).
- The listener's application is told of confirmations through a ring of 15 messages, and a
  confirmation that finds it full is dropped. From then on `nts_accept` returns no later connection
  of that listener: it fails or waits for ever (`Handshake.WhenAcceptFails`,
  `Overflow.BrokenForGood`, `Overflow.DroppedSticks`). This can happen if and only if the backlog
  holds as much as that ring (`Overflow.WhenListenerIsUnsafe`): for exactly the backlogs that are
  multiples of 16, 128 among them (`Overflow.WhenBacklogIsUnsafe`). On all others
  `nts_accept` never fails its comparison and never waits in vain (`Handshake.AcceptNeverFails`,
  `Handshake.AcceptIsNeverStuck`).
- The default hash map compares its keys, which are numbers in memory, as strings. So ports that are
  multiples of 256 are all the same to it (`Packets.WhenPortsCollide`), and names of connections count
  up to their first zero byte (`Packets.WhenNamesCollide`). Packets reach their connections if and
  only if no two of them look alike (`Routing.HandshakeRoutes`); at the client's proxy all connections
  to a listener below port 256 do (`Routing.WhenConnectionsClash`).
- The receiving proxy starts as if its last packet had port 0 at both ends, so it does not look such
  a packet up if it comes first (`Routing.NotLookedUp`). The first client of a listener on port 0 has
  such a connection (`Routing.ZeroAtBothEnds`).
- `put` on a key that is chained behind another overwrites the other's value
  (`HashTable.WhenPutUpdates`). `remove` returns the bucket's first key, found or not.
- `sem_shmring_front` finds nothing in a full ring (`SemRing.Ring.Front`).
- A port claimed by number stays in the free queue. Freeing it there inserts a node that is already
  linked and cuts the queue behind it: ports that are free can no longer be allocated. Freeing a
  port keeps all free ports within reach if and only if the port was not still queued or no free
  port was behind it (`Ports.WhenFreeKeepsAll`, `Ports.ClaimThenFreeLosesPorts`). If it was the first
  or the last in the queue it can never be unlinked again, and once all ports up to it are in use
  the next `allocate_port` never ends (`Ports.WhenAllocateEnds`).
- `allocate_port` dereferences NULL when the queue is empty; the model returns `None`.
- Nothing keeps an append to the list of served connections apart from the thread that unlinks a
  closed one. The new connection is lost if and only if the unlinked node was the last, its link was
  loaded before the new node was linked, and the tail was loaded before it was moved
  (`SendRace.WhenAppendIsLost`). Then all later connections are lost with it, unless the tail was
  put back to the node before, in which case only the new one is not served
  (`SendRace.WhenLaterAppendsAreLost`).

## Model

| member | source | states |
|---|---|---|
| `RingIndex.Next` | libfdu-utils/shmring.c:51-77 | both successor forms used by the rings compute the slot of the next operation, for every count and capacity |
| `RingIndex.SlotsWithinLap` | libfdu-utils/shmring.c:51-77 | two operations at most a lap apart use the same slot if and only if they are the same or exactly a lap apart |
| `RingIndex.SlotIsRemainder` | libfdu-utils/shmring.c:79-87 | the bulk index's subtraction loop computes the remainder |
| `BoundedQueue.LegalHistoryIsFifo` | libfdu-utils/shmring.c:223-301 | a history that a bounded queue accepts delivers what was pushed, in order, holding back at most the bound |
| `Spsc.StepKeepsInv` | libfdu-utils/shmring.c:223-301 | every memory access of either side keeps unread elements intact and the indices equal to the reduced counts |
| `Spsc.EffectIsLegal` | libfdu-utils/shmring.c:223-301 | each operation takes effect as a queue bounded by capacity - 1 would |
| `Spsc.TakeOutcome` | libfdu-utils/shmring.c:256-301 | pop, plain pop and front return the oldest element completely copied, or report empty |
| `Spsc.PushOutcome` | libfdu-utils/shmring.c:223-254 | a push returns true exactly when its element has become the last of the queue, and false exactly when capacity - 1 were queued and nothing changed |
| `Spsc.IndicesTellEmpty` | libfdu-utils/shmring.c:73-77 | the indices are equal if and only if nothing is queued |
| `Spsc.Linearizable` | libfdu-utils/shmring.c:223-301 | in every interleaving, with stale index snapshots and copies word by word, the operations form one legal queue history, and the arguments passed and the codes and bytes returned to each thread are those of that history |
| `Spsc.NoSharedSlot` | libfdu-utils/shmring.c:223-301 | producer and consumer are never inside the same slot |
| `ShmRing.Ring.constructor` | libfdu-utils/shmring.c:210-221 | a new ring is empty |
| `ShmRing.Ring.Push` | libfdu-utils/shmring.c:223-254 | succeeds if and only if fewer than capacity - 1 are queued, and appends |
| `ShmRing.Ring.Front` | libfdu-utils/shmring.c:443-465 | shows the oldest element, or nothing if and only if empty |
| `ShmRing.Ring.Pop` | libfdu-utils/shmring.c:256-281 | removes the oldest element, or nothing if and only if empty |
| `ShmRing.Ring.PlainPop` | libfdu-utils/shmring.c:283-301 | drops the oldest element if and only if there is one |
| `ShmRing.Ring.PushBulk` | libfdu-utils/shmring.c:303-363 | succeeds if and only if all elements fit although the idle-slot formula over-counts when wrapped; equals as many single pushes |
| `ShmRing.Ring.PopBulk` | libfdu-utils/shmring.c:365-441 | returns in order the first n elements across the wrap and equals n single pops; the caller's array need only hold what is written |
| `ShmRing.NextIndexBulk` | libfdu-utils/shmring.c:79-87 | the loop yields the slot that many places on |
| `ShmRing.PushEachFits` | libfdu-utils/shmring.c:303-363 | repeated single pushes all succeed if and only if all elements fit |
| `ShmRing.PopEachTakesPrefix` | libfdu-utils/shmring.c:365-441 | repeated single pops return exactly a prefix of the queue |
| `ShmRing.PopCountIsMinimum` | libfdu-utils/shmring.c:391-406 | when the bulk pop takes as much as it could, in both directions |
| `ShmRing.WhenPopOverruns` | libfdu-utils/shmring.c:400-432 | a bulk pop writes more elements than asked if and only if the ring is wrapped with one element and less than a lap is asked |
| `MemPool.MallocTakesOldest` | libfdu-utils/shm_mempool.c:281-313 | malloc hands out the block freed longest ago and the chain of the rest stays |
| `MemPool.FreeAppends` | libfdu-utils/shm_mempool.c:352-392 | a freed block joins the end of the chain |
| `MemPool.FreshIsSound` | libfdu-utils/shm_mempool.c:213-236 | after set-up the chain visits every block once |
| `MemPool.OpKeepsSound` | libfdu-utils/shm_mempool.c:281-392 | while more than one block is free, each operation keeps the chain exactly the free blocks and hands out none that is held |
| `MemPool.SparingOneIsSafe` | libfdu-utils/shm_mempool.c:281-392 | any run that never takes the last free block, with frees in any order, gets only right answers and recycles in order freed |
| `MemPool.TakingTheLastIsFatal` | libfdu-utils/shm_mempool.c:281-392 | once the last block is out, at most two allowed operations give a wrong answer, from every such state |
| `MemPool.LostForGood` | libfdu-utils/shm_mempool.c:352-392 | when the head ran off the chain no later operation ever gets a block again |
| `MemPool.AddressRoundTrip` | libfdu-utils/shm_mempool.c:326-351 | every address inside a block maps back to the block's number |
| `MemPool.ShmPool.constructor` | libfdu-utils/shm_mempool.c:213-236 | the set-up loop builds the chain in index order |
| `MemPool.ShmPool.Malloc` | libfdu-utils/shm_mempool.c:281-313 | refines the allocation whose meaning the lemmas above state |
| `MemPool.ShmPool.Free` | libfdu-utils/shm_mempool.c:352-392 | refines the release whose meaning the lemmas above state |
| `MemPool.ShmPool.NodeByShmaddr` | libfdu-utils/shm_mempool.c:326-351 | an address of the pool yields the node whose block contains it |
| `Channel.TrafficSparesBlocks` | libfdu-utils/ntp2nts_shm.c:101-102 | the ring's capacity bounds the blocks in use, so an allocation never meets the last free block |
| `Channel.StepKeepsInv` | libfdu-utils/ntp2nts_shm.c:248-313 | every access keeps each block in exactly one place and each packet intact |
| `Channel.DeliversPrefix` | libfdu-utils/ntp2nts_shm.c:248-313 | in every interleaving the packets received are a prefix of the packets sent, unchanged |
| `Channel.AllocationNeverFails` | libfdu-utils/ntp2nts_shm.c:533-565 | the assert after allocation never fails; the chain is exactly the free blocks and stays long enough |
| `Channel.MallocAndFreeTouchDifferentLinks` | libfdu-utils/shm_mempool.c:281-392 | a concurrent malloc and free never read and write the same node's link |
| `Channel.SenderStep` | libfdu-utils/ntp2nts_shm.c:248-281 | the sender keeps its packet until it is queued exactly once |
| `Channel.ReceiverStep` | libfdu-utils/ntp2nts_shm.c:283-313 | a packet counts as received exactly when the receiver comes to hold it |
| `Packets.ConnIdSplits` | ntb-proxy/src/ntp_func.c:213-214 | the sending proxy recovers both ports from a connection's name |
| `Packets.ConnIdInjective` | ntb-proxy/src/ntp_func.c:69-77 | different port pairs have different names, seen from either host |
| `Packets.WhenNamesCollide` | libfdu-utils/hash_map.c:61-64 | which port pairs have names that the default comparison takes for the same |
| `Packets.WhenPortsCollide` | libfdu-utils/hash_map.c:61-64 | two ports as keys are taken for the same if and only if they are equal or both multiples of 256 |
| `NtbRing.StepKeepsInv` | ntb-proxy/src/ntb_mw.c:461-529 | every access, and every delayed arrival on either side of the bridge, keeps the two ranges of full and empty slots |
| `NtbRing.TakenInOrder` | ntb-proxy/src/ntp_func.c:358-468 | every packet is taken exactly once and in order, whatever the delays |
| `NtbRing.ShadowIsSafe` | ntb-proxy/src/ntb_mw.c:50-62 | shadow <= read <= written <= shadow + capacity - 1, and an arriving slot write always meets an empty slot |
| `NtbRing.ToldIndexLagsLittle` | ntb-proxy/src/ntp_func.c:631-635 | in every run the last index told to the sender is at most the read index and less than an interval behind it, except while the next one is about to be sent |
| `NtbRing.LengthMarksUnread` | ntb-proxy/src/ntp_func.c:358-468 | a slot's length field is non-zero if and only if the slot holds an arrived packet that is not cleared |
| `NtbRing.NoStuckSender` | ntb-proxy/src/ntp_func.c:631-635 | if the ring exceeds the interval, a blocked sender always has a packet unread or an index on its way |
| `NtbRing.StuckForGood` | ntb-proxy/src/ntb_mw.c:475-492 | a blocked sender with a drained ring stays so under every step |
| `NtbRing.StuckExactlyWhenSmall` | ntb-proxy/src/ntb_mw.c:475-492 | such a state can be reached if and only if the capacity is at most the interval |
| `Segments.SplitKeepsData` | libnts/src/nts_api.c:1551-1609 | the packets of a write concatenate to its data, none is empty, and only the last may be short |
| `Socket.FromQueueIsStream` | libnts/src/nts_api.c:1313-1488 | bytes returned, kept and still queued are the stream, for each way a read can end |
| `Socket.ReadReturnsNextBytes` | libnts/src/nts_api.c:1203-1488 | a read returns 1 to n of the next bytes; the leftover is shorter than a payload; a read from the cache takes no packet |
| `Socket.WhenFromQueueReturns` | libnts/src/nts_api.c:1313-1488 | exactly when a read waits and exactly when it fails and loses bytes |
| `Socket.FullRunMeaning` | libnts/src/nts_api.c:1313-1488 | what the condition of the previous row says about the queue: full packets, fewer bytes than asked |
| `Socket.FinLosesPacket` | libnts/src/nts_api.c:1425-1462 | for every full packet: a read of one byte more waits, and if a FIN follows it fails and the packet is lost |
| `Socket.ReadsConsumeStream` | libnts/src/nts_api.c:1203-1488 | reads of any sizes together return a prefix of the stream, losing nothing |
| `Socket.AnyWritesAnyReads` | libnts/src/nts_api.c:1203-1639 | for every split into writes and every read sizes, reads, cache and queue make up what was written |
| `Socket.NtSocket.Write` | libnts/src/nts_api.c:1503-1639 | queues the packets of the data and returns their length; when not established queues nothing and returns the unset count if that is positive, else fails |
| `Socket.NtSocket.Read` | libnts/src/nts_api.c:1203-1493 | refines the read whose meaning is stated above, frees each packet taken exactly once, and closes the socket exactly on a FIN |
| `Socket.NtSocket.Finish` | libnts/src/nts_api.c:1343-1421 | the last packet of a read: what does not fit is kept in the cache, in order, and the block is freed once |
| `Socket.NtSocket.ReadCached` | libnts/src/nts_api.c:1327-1421 | a read served from the cache ends in one round and leaves the queue alone |
| `Socket.NtSocket.MoveDown` | libnts/src/nts_api.c:1376-1421 | moving the leftover within its own buffer keeps its bytes |
| `Stream.StepKeepsInv` | ntb-proxy/src/ntp_func.c:209-468 | every step of applications, writers, proxies, bridge and readers keeps each connection's flow, with any number of connections; what a write was given is what was cut plus what is left to cut |
| `Stream.LookupFindsConnection` | ntb-proxy/src/ntp_func.c:384-394 | the cached lookup finds the connection that a packet was sent on |
| `Stream.PacketsArePrefix` | ntb-proxy/src/ntp_func.c:209-468 | the packets read on a connection are the first ones written on it |
| `Stream.Conserved` | libnts/src/nts_api.c:1203-1639 | data passed to writes = data returned by reads ++ reader and cache ++ receive ring ++ receive proxy ++ NTB ring ++ send proxy ++ send ring ++ writer with the part not yet cut |
| `Stream.ReadsAreBounded` | libnts/src/nts_api.c:1203-1493 | every read that returned got at least one byte and no more than it asked for |
| `Stream.ReadsArePrefixOfWrites` | libnts/src/nts_api.c:1203-1639 | in every run, on every connection, that equation holds for the arguments of the write calls and the results of the read calls; so reads deliver a prefix of the writes, each 1 to n bytes |
| `MultiSlot.ParseOfLay` | ntb-proxy/src/ntp_func.c:486-552 | for every length the marker lies where the receiver looks and the payload it reads is the payload sent |
| `MultiSlot.SlotsUnique` | ntb-proxy/src/ntp_func.c:284-308 | the slots filled by the sender's loop are the rounded count of the receiver |
| `MultiSlot.DataRing.EnqueueFirst` | ntb-proxy/src/ntb_mw.c:217-341 | the first slot gets ports, length and the first payload bytes, and nothing else of the ring changes |
| `MultiSlot.DataRing.EnqueueBare` | ntb-proxy/src/ntb_mw.c:184-215 | a slot of bare data, or a marker, at this end's next slot |
| `MultiSlot.DataRing.SendMulti` | ntb-proxy/src/ntp_func.c:284-308 | the whole message and its marker lie in order across the ring's end, and the index moves past the marker |
| `MultiSlot.DataRing.Gather` | ntb-proxy/src/ntp_func.c:509-525 | the one- or two-part copy reassembles the payload |
| `MultiSlot.DataRing.ClearLengths` | ntb-proxy/src/ntp_func.c:527-540 | exactly the message's slots lose their length |
| `MultiSlot.DataRing.ReceiveMulti` | ntb-proxy/src/ntp_func.c:486-552 | waits without effect until the marker is there, then returns the payload, clears its slots and moves past the marker |
| `MultiSlot.LayJoins` | ntb-proxy/src/ntp_func.c:284-308 | a message laid behind any number of queued ones joins the queue, and payload bytes left in length fields never look like a message |
| `MultiSlot.CollectLeaves` | ntb-proxy/src/ntp_func.c:527-540 | taking the first message out and clearing its slots leaves exactly the others queued |
| `MultiSlot.Deposit` | ntb-proxy/src/ntp_func.c:284-308 | with any long messages on their way and room for one more, the sender's loop appends it to them and both ends agree where the next goes |
| `MultiSlot.Collect` | ntb-proxy/src/ntp_func.c:486-552 | the receiver gets exactly the first of the messages on their way and leaves the others, and gets nothing if and only if there is none |
| `MultiSlot.FirstOfQueue` | ntb-proxy/src/ntp_func.c:375-379 | the length field of the next slot is zero if and only if no message is queued; otherwise the first message is found whole |
| `SemRing.StepKeepsInv` | libfdu-utils/sem_shmring.c:325-428 | every access of any producer or of the consumer keeps tokens, mutex and slots consistent |
| `SemRing.MutualExclusion` | libfdu-utils/sem_shmring.c:325-385 | at most one of any number of producers is in the critical section |
| `SemRing.SlotIsFree` | libfdu-utils/sem_shmring.c:325-385 | the slot being written is none that the consumer may read |
| `SemRing.DeliversInOrder` | libfdu-utils/sem_shmring.c:325-428 | elements come out unchanged in critical-section order, at most capacity ahead |
| `SemRing.CallersSeeTheRing` | libfdu-utils/sem_shmring.c:325-428 | in every run each producer's elements are in the ring's history in the order it was asked to push them, and each pop returned the element taken |
| `SemRing.TokensAreConserved` | libfdu-utils/sem_shmring.c:325-428 | free + filled + operations in flight = capacity in every reachable state; at rest, free is exactly the capacity less what is queued |
| `SemRing.PushWaitsWhenFull` | libfdu-utils/sem_shmring.c:325-347 | a push that starts at rest waits if and only if capacity elements are queued |
| `SemRing.ConsumerReadsFinishedSlots` | libfdu-utils/epoll_event_queue.c:255-353 | without the mutex the consumer still reads only finished slots |
| `SemRing.Ring.constructor` | libfdu-utils/sem_shmring.c:308-323 | a new ring is empty |
| `SemRing.Ring.Push` | libfdu-utils/sem_shmring.c:325-385 | with a free token, appends; all capacity slots can be in use |
| `SemRing.Ring.Pop` | libfdu-utils/sem_shmring.c:387-426 | with a filled token, removes and returns the oldest element |
| `SemRing.Ring.Front` | libfdu-utils/sem_shmring.c:428-448 | finds nothing if and only if the ring is empty or full, because it ignores the full flag |
| `SemRing.Ring.Size` | libfdu-utils/sem_shmring.c:539-559 | the number of elements queued, told from the indices and the full flag |
| `SemRing.Ring.Empty` | libfdu-utils/sem_shmring.c:517-523 | true if and only if nothing is queued |
| `SemRing.Ring.Full` | libfdu-utils/sem_shmring.c:525-530 | true if and only if capacity elements are queued |
| `DuplexRing.EnqueueRefines` | ntb-bench-tools/ntbring_benchtool/ntb_ring.c:121-305 | each placement's enqueue is a bounded queue's, with the same code, and leaves the other direction alone |
| `DuplexRing.DequeueRefines` | ntb-bench-tools/ntbring_benchtool/ntb_ring.c:307-481 | each placement's dequeue is that queue's and returns its head |
| `DuplexRing.AnswersAreIdeal` | ntb-bench-tools/ntbring_benchtool/ntb_ring.c:121-481 | every sequence of calls at both ends is answered as by a pair of queues |
| `DuplexRing.PlacementsAreEquivalent` | ntb-bench-tools/ntbring_benchtool/ntb_ring.c:121-481 | all four placements answer every sequence of calls alike |
| `DuplexRing.LengthCheckNeverFails` | ntb-bench-tools/ntbring_benchtool/ntb_ring.c:307-481 | no dequeue in any sequence of calls returns -1 |
| `DuplexRing.Link.Enqueue1` | ntb-bench-tools/ntbring_benchtool/ntb_ring.c:121-168 | refines the enqueue with local consumer and local producer pointers |
| `DuplexRing.Link.Enqueue2` | ntb-bench-tools/ntbring_benchtool/ntb_ring.c:170-213 | refines the enqueue with local consumer and remote producer pointers |
| `DuplexRing.Link.Enqueue3` | ntb-bench-tools/ntbring_benchtool/ntb_ring.c:215-260 | refines the enqueue with remote consumer and local producer pointers |
| `DuplexRing.Link.Enqueue4` | ntb-bench-tools/ntbring_benchtool/ntb_ring.c:262-305 | refines the enqueue with both pointers remote |
| `DuplexRing.Link.Dequeue1` | ntb-bench-tools/ntbring_benchtool/ntb_ring.c:307-348 | refines the dequeue with local consumer and local producer pointers |
| `DuplexRing.Link.Dequeue2` | ntb-bench-tools/ntbring_benchtool/ntb_ring.c:350-388 | refines the dequeue with local consumer and remote producer pointers |
| `DuplexRing.Link.Dequeue3` | ntb-bench-tools/ntbring_benchtool/ntb_ring.c:390-434 | refines the dequeue with remote consumer and local producer pointers |
| `DuplexRing.Link.Dequeue4` | ntb-bench-tools/ntbring_benchtool/ntb_ring.c:436-481 | refines the dequeue with both pointers remote |
| `DuplexRing.Link.Take` | ntb-bench-tools/ntbring_benchtool/ntb_ring.c:307-348 | copies an element out and clears its length, or refuses a bad length and changes nothing |
| `MaskRing.MaskIsWrap` | monitor/src/utils/nt_spsc_shm_queue.c:71-76 | the masked increment goes round through as many slots as the largest power of two dividing the size, for every size |
| `MaskRing.WhenRoomIsFull` | monitor/src/utils/nt_spsc_shm_queue.c:187 | all but one slot are usable if and only if the size is a power of two, and none if and only if it is odd |
| `MaskRing.Ring.constructor` | monitor/src/utils/nt_spsc_shm_queue.c:96-187 | a new ring is empty |
| `MaskRing.Ring.IsFull` | monitor/src/utils/nt_spsc_shm_queue.c:331-349 | true if and only if that many are queued |
| `MaskRing.Ring.Push` | monitor/src/utils/nt_spsc_shm_queue.c:247-272 | succeeds if and only if fewer are queued, and appends |
| `MaskRing.Ring.Pop` | monitor/src/utils/nt_spsc_shm_queue.c:281-310 | removes the oldest element, or nothing if and only if empty |
| `Ports.AllocateIsFresh` | monitor/src/nt_port.c:45-78 | a port handed out was free and is now used, and no other port changes, however many stale entries are skipped |
| `Ports.AllocateFindsFree` | monitor/src/nt_port.c:45-78 | where every free port is queued, allocation fails if and only if every port is in use, and leaves every free port queued |
| `Ports.ClaimKeepsComplete` | monitor/src/nt_port.c:80-106 | a claim succeeds if and only if the port exists and is free, and leaves every free port queued |
| `Ports.WhenInsertKeepsList` | monitor/src/nt_port.c:126 | an insertion at the tail leaves a well-formed linked queue if and only if the port was not in it |
| `Ports.InsertQueuedReaches` | monitor/src/nt_port.c:126 | after inserting a port that is still linked, exactly the ports up to and including it can be reached |
| `Ports.WhenFreeKeepsAll` | monitor/src/nt_port.c:108-130 | freeing keeps all free ports within reach if and only if the port was not still queued or no free port was queued behind it |
| `Ports.ClaimThenFreeLosesPorts` | monitor/src/nt_port.c:80-130 | in a fresh table of any size, claiming a port by number and freeing it loses every higher port |
| `Ports.AllocateRefines` | monitor/src/nt_port.c:45-78 | on a well-formed linked queue the loop ends, finds the port that the sequence view gives, and leaves a well-formed queue |
| `Ports.InsertQueuedMakesStrand` | monitor/src/nt_port.c:126 | inserting a linked port leaves a list up to that port, which can be unlinked if and only if it was neither first nor last |
| `Ports.WhenStrandEnds` | monitor/src/nt_port.c:52-72 | on such a list the allocation loop ends if and only if a port in it is free or its last port can be unlinked |
| `Ports.WhenAllocateEnds` | monitor/src/nt_port.c:45-130 | after a queued port was freed, allocation ends if and only if a port up to it is free or it was neither first nor last; otherwise it loops for ever |
| `Ports.PortContext.constructor` | monitor/src/nt_port.c:18-43 | initially every port is free and linked once, in order |
| `Ports.PortContext.Insert` | monitor/src/nt_port.c:126 | the assignments of the tail insertion, on any links |
| `Ports.PortContext.RemovePort` | monitor/src/nt_port.c:64-69 | the assignments of the removal, on any links |
| `Ports.PortContext.AllocatePort` | monitor/src/nt_port.c:45-78 | on any links on which the loop ends, refines the allocation whose end and meaning are stated above |
| `Ports.PortContext.AllocateSpecifiedPort` | monitor/src/nt_port.c:80-106 | refines the claim, leaving the queue alone |
| `Ports.PortContext.FreePort` | monitor/src/nt_port.c:108-130 | refines the release on the links, in every state, also for a port still linked |
| `Handshake.StepKeepsInv` | monitor/src/ntb_monitor.c:558-1004 | every step of applications, monitors and proxies keeps each connection's progress along the three messages and what each listener's application was told, also when a confirmation is dropped at a full message ring |
| `Handshake.ServerEstablishedMeansClient` | monitor/src/ntb_monitor.c:921-1004 | a server socket is ESTABLISHED only if its client socket is, and then both proxies hold it mirrored on one partition |
| `Handshake.ProxiesMirror` | ntb-proxy/src/ntp_func.c:106-176 | at every moment the client's proxy holds the first of the connections at the server's, in the same order, mirrored on the same partition, with distinct client ports |
| `Handshake.PartitionsInTurn` | ntb-proxy/src/ntp_func.c:146-163 | the i-th connection at the server's proxy is on the i-th partition in round-robin order, an existing one |
| `Handshake.BacklogNeverOverflows` | monitor/src/ntb_monitor.c:603-718 | after the check for room, the push onto the backlog always succeeds |
| `Handshake.ConfirmationFindsSocket` | monitor/src/ntb_monitor.c:962-988 | a CLIENT_SYN_ACK always names a listener and a socket that exist |
| `Handshake.ConnectionsAreConserved` | monitor/src/ntb_monitor.c:800-1004 | in every run accepted connections are on file at the client and are, in order of acceptance, those established there, the one in its hands and those of the SYN_ACKs on their way; established ones are those confirmed and those of the CLIENT_SYN_ACKs on their way |
| `Handshake.ConfirmedInOrder` | monitor/src/ntb_monitor.c:921-1004 | the client's confirmations of a listener come in backlog order, and what the application read, took and returned fits them |
| `Handshake.WhenAcceptFails` | libnts/src/nts_api.c:553-667 | in every run, on every listener: accept returned, in backlog order, exactly the sockets whose confirmations it read before the first dropped one, and has failed if and only if it has read one from behind a dropped one |
| `Handshake.RunDropsNone` | monitor/src/ntb_monitor.c:986-1000 | in every run no confirmation is dropped on a listener whose backlog holds less than the message ring |
| `Handshake.QuietMeansConfirmed` | monitor/src/ntb_monitor.c:558-1004 | when nothing is on its way, every accepted connection is established at the client, confirmed at the server and filed at both proxies |
| `Handshake.LeftWithoutConfirmation` | libnts/src/nts_api.c:553-667 | when nothing is on its way, the sockets waited for or in the backlog are as many as confirmations were dropped or are unread |
| `Handshake.AcceptIsNeverStuck` | libnts/src/nts_api.c:553-667 | an accept that waits for a confirmation while nothing is on its way waits for a dropped one, on a listener whose backlog holds as much as the message ring |
| `Handshake.AcceptNeverFails` | libnts/src/nts_api.c:553-667 | in every run, if the backlog holds less than the message ring, the id comparison never fails and the sockets pushed are those returned, the one waited for and the backlog, in this order |
| `Overflow.BrokenForGood` | libnts/src/nts_api.c:553-667 | however a run goes on after a dropped confirmation, accept returns only sockets confirmed before it |
| `Overflow.DroppedSticks` | libnts/src/nts_api.c:642-653 | from every quiet state after a dropped confirmation, accepts alone lead into an endless wait |
| `Overflow.DroppingRun` | monitor/src/ntb_monitor.c:990-1000 | for every backlog that holds as much as the message ring, a run that drops a confirmation |
| `Overflow.StuckRun` | libnts/src/nts_api.c:642-653 | for every such backlog, a run that leaves accept waiting with nothing on its way |
| `Overflow.RejectingRun` | libnts/src/nts_api.c:662-667 | for every such backlog, a run in which the id comparison fails |
| `Overflow.WhenListenerIsUnsafe` | monitor/src/ntb_monitor.c:986-1000 | runs that drop, reject or stick exist, each if and only if the backlog holds as much as the message ring |
| `Overflow.WhenBacklogIsUnsafe` | monitor/src/include/nts_shmring.h:24 | with the message ring of 16 slots: if and only if the backlog asked for is a multiple of 16 |
| `Handshake.WhenConnectHangs` | libnts/src/nts_api.c:789-905 | a refused connect is waiting, and when nothing is on its way a waiting connect was refused |
| `Handshake.RefusedForGood` | monitor/src/ntb_monitor.c:1013-1036 | however the run goes on, a refused connect stays waiting |
| `Handshake.RefusedConnectHangs` | monitor/src/ntb_monitor.c:580-588 | for every port nobody listens on, a run in which the connect is left waiting |
| `Handshake.ProxyPortsExist` | monitor/src/ntb_monitor.c:1891-1905 | connections at the proxies have a listener and ports below the configured maximum |
| `Routing.TableFinds` | ntb-proxy/src/ntp_func.c:106-146 | a filed connection is found if and only if none filed after it has a name that agrees up to a zero byte |
| `Routing.PortsFit` | monitor/src/ntb_monitor.c:1891-1905 | with a maximum of at most 65536 all ports fit the 16 bits of a name |
| `Routing.WhenTableRoutes` | ntb-proxy/src/ntp_func.c:384-394 | the data path's assumption holds of a table if and only if no connection has port 0 at both ends and none looks like a later one |
| `Routing.HandshakeRoutes` | ntb-proxy/src/ntp_func.c:384-394 | in every run of the handshake, in both directions and on every partition, that is exactly when packets of the connections set up are led to them |
| `Routing.WhenConnectionsClash` | libfdu-utils/hash_map.c:61-64 | which connections look alike at either proxy, in terms of their ports |
| `Routing.ZeroAtBothEnds` | ntb-proxy/src/ntp_func.c:346-348 | a run that sets up a connection with port 0 at both ends |
| `Routing.NotLookedUp` | ntb-proxy/src/ntp_func.c:387-394 | the first packet of such a connection is given to whatever connection is there before it |
| `HashTable.FlatIsMap` | libfdu-utils/hash_map.c:317-354 | walking all buckets lists each entry of the map exactly once |
| `HashTable.WhenPutUpdates` | libfdu-utils/hash_map.c:127-177 | a put is an update of its key if and only if the key is new or first in its bucket, or nothing would change |
| `HashTable.PutOverwritesNeighbour` | libfdu-utils/hash_map.c:140-153 | a concrete table in which a put changes another key's value |
| `HashTable.HashMap.constructor` | libfdu-utils/hash_map.c:293-315 | a new map of 4096 buckets holds nothing |
| `HashTable.HashMap.Exists` | libfdu-utils/hash_map.c:252-273 | true if and only if the map holds the key |
| `HashTable.HashMap.Get` | libfdu-utils/hash_map.c:179-195 | the value the map holds, or nothing |
| `HashTable.HashMap.Put` | libfdu-utils/hash_map.c:127-177 | exactly one key changes, also across a growth; size stays below the number of buckets; the recursion through reset ends |
| `HashTable.HashMap.Remove` | libfdu-utils/hash_map.c:197-250 | exactly the key goes, also across a shrink; returns the bucket's first key |
| `HashTable.HashMap.Reset` | libfdu-utils/hash_map.c:66-125 | the map is the same at the new size; fewer than eight buckets are refused |
| `HashTable.Cursor.Next` | libfdu-utils/hash_map.c:332-354 | the k-th call yields the k-th entry of the walk over all buckets |
| `QuickSort.Partition` | libfdu-utils/array.c:201-222 | permutes the segment around its saved first item, smaller left and larger right, for any comparator |
| `QuickSort.PendingStep` | libfdu-utils/array.c:224-240 | pending segments stay disjoint and each saved pivot still is its segment's first item |
| `QuickSort.SettledStep` | libfdu-utils/array.c:201-240 | any two items are in order or inside one pending segment, across a pass |
| `QuickSort.WorkDrops` | libfdu-utils/array.c:196-240 | each pass leaves less to do, so the loop ends |
| `QuickSort.Sort` | libfdu-utils/array.c:178-241 | a permutation for every comparator, and sorted for every total preorder |
| `SendList.LapServesEachOnce` | ntb-proxy/src/main.c:102-165 | whatever is added or closed meanwhile, a lap serves every linked connection once in order; all others were found closed and unlinked |
| `SendList.OpenConnectionIsServed` | ntb-proxy/src/main.c:102-165 | a connection nobody closes is served in every lap |
| `SendList.List.constructor` | ntb-proxy/src/ntb_mw.c:640-647 | the list starts with its head linked to itself |
| `SendList.List.Add` | ntb-proxy/src/ntp_func.c:48-67 | appends at the tail, keeps the circle, and leaves the thread's place |
| `SendList.List.Turn` | ntb-proxy/src/main.c:109-161 | one turn refines the step above: head, unlink (also of the tail), or serve; the circle stays whole |
| `SendList.BatchIsFull` | ntb-proxy/src/ntp_func.c:247-314 | a turn ends after bulk-size messages, when none is left, or with a FIN as its last message |
| `SendList.Forward` | ntb-proxy/src/ntp_func.c:247-314 | the loop forwards exactly that batch in order, keeps the rest, and closes exactly on a FIN |
| `SendList.PartitionsAreBalanced` | ntb-proxy/src/ntp_func.c:995-1007 | after any number of connections two partitions' shares differ by at most one |
| `SendRace.StepKeepsInv` | ntb-proxy/src/main.c:144-149 | every load and store of either thread keeps the invariant on links, tail and the order of accesses |
| `SendRace.WhenAppendIsLost` | ntb-proxy/src/ntp_func.c:48-67 | when both are done, the circle has the new node last, unless the last node was unlinked, its link loaded before the new node was linked, and the tail loaded before it moved; then the circle is closed without it |
| `SendRace.WhenTailIsRight` | ntb-proxy/src/main.c:145-149 | the tail ends at the new node if and only if it was not stored between the other thread's test and store |
| `SendRace.LostAppend` | ntb-proxy/src/main.c:144-149 | for every list whose last node is unlinked, an interleaving that loses the new connection and leaves the tail outside the circle |
| `SendRace.OvertakenTail` | ntb-proxy/src/main.c:144-149 | for every such list, an interleaving that keeps the new connection and leaves the tail at the node before it |
| `SendRace.AppendsFollow` | ntb-proxy/src/ntp_func.c:48-67 | any number of appends behind the node the tail points to follow it in the circle, whatever was behind it before |
| `SendRace.AppendsStayOutside` | ntb-proxy/src/ntp_func.c:48-67 | with the tail outside the circle, no number of appends changes the circle |
| `SendRace.WhenLaterAppendsAreLost` | ntb-proxy/src/ntp_func.c:48-67 | after either outcome of the race, exactly which of the new and any number of later connections are in the circle, in order |

## Left out

- Set-up and teardown of shared memory, semaphores, PCI and DPDK, configuration, logging, benchmarks and tools: calls into foreign code.
- Start-up races: runs start from initialised rings and pools, as the source assumes.
- Weak memory: all machines assume sequentially consistent memory.
- Integer widths of ring counters: the code keeps only reduced indices, which stay below the capacity.
- `Spsc`: elements have the ring's element size; the shorter copy lengths that callers could pass are not modelled.
- `Channel`: one sender and one receiver per pool, as in the data path; the probe path's allocation is not part of it.
- `NtbRing`: the write of one slot by `ntpacket_enqueue` is one action, because its header goes before its payload; the waits on the bridge are delays of any length.
- `Stream`: one direction; the order in which the proxies turn to connections is arbitrary; no connection has both ports zero, the initial contents of the lookup cache; connections stay open.
- `Stream`: messages of several slots take the route of `MultiSlot`; payloads there fit one slot.
- The drop branch for closed or unknown connections, probe packets and the control ring.
- `MultiSlot`: the type tag of a first slot, which the sender never writes; the wait for room, which `NtbRing` treats, so a deposit requires room; `ReceiveMulti` requires a message that fits into the ring; a sender and a receiver at work at once.
- `SemRing`: in the concurrent machine the flags `is_full` and `num_events`, which the consumer changes outside the mutex; the tests built on `is_full` are stated for a ring at rest.
- `Handshake`: one client and one server role; each socket connects once, since `nts_connect` blocks; a bound socket does not connect, since the library refuses it before the monitor, which would take it, gets to see it; a client socket is established when its monitor says so, while `nts_connect` itself can still fail if that news overtakes the one that the SYN was sent; listeners and sockets are not closed; the accepted socket's own port, which no message carries; failures of the proxy; ids are fresh rather than recycled.
- `Ports.PortContext.AllocatePort`: is stated for the states in which its loop ends; which those are is stated by `Ports.WhenStrandEnds` and `Ports.AllocateRefines`.
- `Ports`: the locks around the table; a maximum that is not positive, which set-up refuses.
- `Handshake`: the monitors' tables are maps on whole numbers, which is what they are as long as no two ports or socket ids in one table are multiples of 256 (`Packets.WhenPortsCollide`).
- `Handshake`: a backlog above the monitor's `nt_max_conn_num`, which the monitor cuts down and the library does not; messages from applications to a monitor that find their ring full.
- `Routing`: bytes are in the order of a little-endian machine, and a name without a zero byte ends after its four bytes, where the source's comparison would read on; a second put under one name replaces the first, where the source may change a neighbour in its bucket (`HashTable.WhenPutUpdates`).
- `Overflow.WhenListenerIsUnsafe`: requires ports for two clients more than the message ring holds, which the failing runs need; `Handshake.AcceptNeverFails` does not.
- `Handshake`: ports are handed out from a queue of numbers, which `Ports` relates to the links; the handshake frees none.
- `HashTable`: keys are compared by equality and hashed by any function; the two hash functions of the source are not modelled; `clear` is left out.
- `QuickSort`: a list is an array of items, since nodes keep their places; the other operations of the list (push, pop, shift, reverse, slice, concat, filter) are left out as easy or off-intent on edge inputs.
- `SendList.LapServesEachOnce`: an append and a turn are each one action; one append against one unlinking, access by access, is the subject of `SendRace`.
- `SendRace`: the block of the unlinked node is freed; a store into it is taken as a store into a node nobody reaches.
- Epoll, connection teardown and FIN between the monitors.
- `MaskRing`: in one thread; between threads its accesses are those of `Spsc`.
- The other copies of the same ring (`nts_shmring`, `ntm_ntp_shmring`, `ntp_ntm_shmring`, `ntm_shmring`).
