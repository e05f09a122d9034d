# ven: a verified model of its networking and memory core

`ven` is an IOCP networking library. This project models the parts of it that hold real invariants and proves what they
promise. `dafny verify dfyconfig.toml` checks everything.

| files | component |
|---|---|
| `SessionLifecycle`, `SessionInvariants`, `SessionHistory`, `SessionTheorems` | one TCP connection, from `_on_conn_init` to `_on_disc`, as a step machine over any number of threads; every flag access and every locked section is a step of its own, and the connected check and mark of `send` and `recv` are one step or two, by configuration; `SessionHistory` reads off the steps of a run alone what it was asked to do, and proves that it did that |
| `SendQueue` | `SBuf`, `BufArray`, `SOVPool`: how sends are coalesced into batches |
| `PacketStream`, `ReceiveBuffer`, `ReceiveHandler` | the packets of a whole stream; the buffer that grows, shrinks and is exchanged; `RBuf` and the loop of `_on_recv` over arrays |
| `BufMemory`, `BufObjects`, `ZeroCopy` | reference-counted blocks, as values and as objects that share blocks; slices of the receive buffer that users keep while the system writes on |
| `WireValue`, `Archive`, `WireTheorem` | the serializer's values and bytes; `Sizer`, `Buf::set`/`get`, `Archive`, `BufConv` over arrays; the theorem from sent fields to received fields |
| `PacketBuffers` | the two receive models joined: what the parser cuts off are the Bufs users hold |
| `SessionPool`, `Acceptor` | sessions and accept objects circulating between pools, pending accepts and live connections, as values and as objects |
| `AcceptorSteps`, `AcceptorInvariants`, `AcceptorTheorems`, `AcceptorSaturation`, `AcceptorAlone` | the acceptor's handlers as a step machine over any number of threads, each statement that touches what they share a step; what a handler alone does is what the class does |
| `LfStack` | the counted compare-and-swap stack, each load, store and swap a step |
| `SList` | the intrusive list over real nodes, of which the free lists of `MemPool` and `ThreadCache` are made |
| `UnitClasses`, `MemPool`, `ThreadCache`, `TlsMemPool`, `SlabAlloc` | size classes, the free-list pool, the per-thread caches over a shared list, and the carving of slabs |
| `Bytes`, `Seqs`, `Options` | helpers |

Most components have two layers: functions on values that follow the code branch by branch, about which the theorems are
proved, and classes whose methods update fields, arrays and loops as the code does and are proved to do what the functions
say. The session lifecycle and the lock-free stack, which are about interleaving and nothing else, are step machines
instead; the acceptor is both, and `AcceptorAlone` joins the two.

## Conditions that turned out to be exact

Some promises hold only under a condition; each has a theorem that says exactly which.

- Teardown is safe if and only if connected is never cleared while another thread stands between the connected check and
  the mark that follows it, or there are fewer than two threads, or check and mark are one step, in `send`
  (`session_tcp.h:96-105`) and in `recv` (`session_tcp.h:349-352`). The code takes no common lock around them. The runs
  `SplitSendIsUnsafe` and `SplitRecvIsUnsafe` give are possible in the code as written: the late thread comes to `sbuf_`
  when `_on_disc` has made its `sov_` null, or to `rbuf_` when it has released its block, and the model stops it there. The other
  results about a connection are for the configurations in which teardown is safe.
- `LFStack` behaves as a stack if and only if no node is pushed again while another `pop` holds it as its loaded head, or
  there are fewer than two threads or nodes: `ptr_` is loaded before `pop_cnt_`, so the count does not protect `next_`. The
  file says of itself that it is not accurate (`lfstack.h:7`).
- Whenever the acceptor's handlers have all run to their end, from `listen` to the release, no accept object is idle that
  has a session it could use, if and only if no session comes back to its pool between an empty `spool_->pop`
  (`acceptor.h:120`) and the `apool_.push` that follows it (`acceptor.h:122`) on another thread, or there is one thread;
  and `acceptex` does not fail outright (or nothing runs at all). No lock covers a handler, so the run `LosesWakeup` gives
  is possible in the code: object and session end up idle in their pools, and the server accepts nobody again.
  `ListenIsCut` is the run where `acceptex` fails outright in `listen`.
- When `uninit` reads 0 from `accepting_cnt_` (`acceptor.h:45`), every accept object is in the pool it then empties if and
  only if no thread stands between taking an object and counting it (`acceptor.h:117-134`) or between its completion and
  its return to the pool (`acceptor.h:138-159`), and none was dropped by an `acceptex` that failed outright. The count goes
  down before the object goes back, so `uninit` can read 0 too early; `ZeroTooEarly` is the run.
- The receive buffer always has room if and only if the block given for the default size holds a header.
- A slab holds the blocks carved from it if and only if the blocks of each class together are below 2^32 bytes, since their
  product is computed in 32 bits (`mem_alloc.h:78`).
- `make_buf` gives the encoding of the fields if and only if `set_size` leaves them at the size counted, and that is below
  2^32 bytes.
- The per-thread pool always finds a block if and only if `cnt_` and `pop_cnt_` are at least 1.

Where comments and code differ, the model follows the code: `mem_pool.h:60` creates 1000 blocks of 8K where its comment says
100, and with the default of `tls_mem_pool.h:28-31` a thread's free list moves at 5 blocks where the comment says 10.

## Model

| member | source | states |
|---|---|---|
| `SessionTheorems.SafeTeardown` | ven/include/ven/net/session_tcp.h:407-447 | in every interleaving by any number of threads, `_on_disc` runs at most once, reports the error of the first `_disconnect`, and from the moment a thread is about to run it no send batch and no receive is outstanding or being handled; no thread comes to the current batch or to the receive block when it has taken them away |
| `SessionTheorems.NoLostTeardown` | ven/include/ven/net/session_tcp.h:411-428 | a session whose connected flag is cleared has its teardown claimed, or I/O outstanding, or a thread at a statement that still decides |
| `SessionTheorems.NoStrandedSend` | ven/include/ven/net/session_tcp.h:326-345 | unsent Bufs of a connected session imply a batch in flight, or a thread bound to send or to disconnect |
| `SessionTheorems.NoLostReceive` | ven/include/ven/net/session_tcp.h:312-371 | a connected session has a receive outstanding or a thread that handles one or will call `recv`, or a thread is about to end the connection |
| `SessionTheorems.ServesAtRest` | ven/include/ven/net/session_tcp.h:273-381 | when all threads are back in the loop and the session is connected, a receive is posted, Bufs wait only behind a batch the system has, and nothing has happened that should have ended it |
| `SessionTheorems.SendOrder` | ven/include/ven/net/session_tcp.h:94-112 | until teardown, the batches popped, in pop order, then the current batch, are exactly the Bufs `send` was called with while the session was connected, in order, which the steps of the run alone tell; the pop count is the number of batches out |
| `SessionTheorems.StepShrinks` | ven/include/ven/net/session_tcp.h:326-340 | after connected is cleared, every statement and every completion makes a measure of the work left smaller |
| `SessionTheorems.TeardownIsReached` | ven/include/ven/net/session_tcp.h:407-447 | so a run without new calls has at most that many steps, and where nothing more can be done teardown has run exactly once and every thread is idle |
| `SessionTheorems.TeardownCompletes` | ven/include/ven/net/session_tcp.h:407-447 | from every state with connected cleared there is such a run to teardown |
| `SessionTheorems.SplitSendIsUnsafe` | ven/include/ven/net/session_tcp.h:94-112 | with the connected check of `send` and its queueing apart, a run comes to the queue when teardown has made its `sov_` null |
| `SessionTheorems.SplitRecvIsUnsafe` | ven/include/ven/net/session_tcp.h:347-371 | with the connected check of `recv` and its mark apart, a run marks a receive after teardown and comes to the block it has released |
| `SessionTheorems.SafeExactlyWhen` | ven/include/ven/net/session_tcp.h:94-112 | every run tears down safely if and only if connected is never cleared while a thread stands between check and mark, or there are fewer than two threads, or check and mark are one step in both `send` and `recv` |
| `SessionTheorems.TeardownMayClose` | ven/include/ven/net/session_tcp.h:407-447 | when `_on_disc` runs, the queue of the session has nothing in flight, which `uninit` asks for |
| `SessionTheorems.BatchMayReturn` | ven/include/ven/net/session_tcp.h:326-331 | when `_on_send` returns a batch, the queue has one in flight and is not torn down |
| `SessionInvariants.StepKeepsInv` | ven/include/ven/net/session_tcp.h:326-447 | each statement of each handler keeps what every thread knows, the flags, the queue, the debt to tear down and the duty to send |
| `SessionInvariants.RunKeepsInv` | ven/include/ven/net/session_tcp.h:202-447 | hence every run of the connection does |
| `SessionHistory.AcceptedIsPushed` | ven/include/ven/net/session_tcp.h:94-105 | what has been queued are the Bufs of the calls of `send` made, or checked, before connected was cleared, in the order of their locked sections |
| `SessionHistory.ConnectedUntilCleared` | ven/include/ven/net/session_tcp.h:407-414 | a session is connected until the first `_disconnect` clears it, and never again |
| `SessionHistory.EachBatchPostedOnce` | ven/include/ven/net/session_tcp.h:383-405 | `WSASend` is called exactly once for each batch popped, or a thread is about to |
| `SessionHistory.IoAnswered` | ven/include/ven/net/session_tcp.h:326-405 | the calls of `WSASend` and of `WSARecv` that succeeded are the completions that came and those outstanding; at most one receive is outstanding |
| `SessionHistory.FlushesWhenDue` | ven/include/ven/net/session_tcp.h:326-345 | `_on_send` calls `send(Buf())` only after a completion that left Bufs waiting with nothing in flight |
| `SessionHistory.EveryPacketGiven` | ven/include/ven/net/session_tcp.h:283-303 | `on_recv` is called once for each packet of each receive, except for those the thread at work has yet to give |
| `SessionHistory.ReportsReason` | ven/include/ven/net/session_tcp.h:243-250 | `on_disc` is told, once, the error of the very operation that failed, or 16000, or 0, for which the first `_disconnect` came |
| `SessionHistory.WaitsUnlessForced` | ven/include/ven/net/session_tcp.h:407-447 | the socket is shut by `disconnect` at most once; a session torn down has either had that, or exactly one answer to `disconnectex` |
| `SessionHistory.EndsExactlyWhen` | ven/include/ven/net/session_tcp.h:273-447 | connected is cleared, or a thread is on its way to clear it, if and only if `disconnect` was called, an operation failed or a packet size was invalid |
| `SessionHistory.NothingQueuedAfter` | ven/include/ven/net/session_tcp.h:243-250 | teardown leaves no Buf in the queue, and none comes to it afterwards |
| `SendQueue.PushPopKeepsOrder` | ven/include/ven/net/sbuf.h:41-61 | one locked push and pop loses, repeats and reorders nothing and leaves room for the next push |
| `SendQueue.FlushDue` | ven/include/ven/net/sbuf.h:49-77 | there is something to send exactly when a `send` of an empty Buf would hand a batch out |
| `SendQueue.InFlightBound` | ven/include/ven/net/sbuf.h:49-77 | within a busy period the pop count is at most 1 + (Bufs pushed since its first pop) / capacity |
| `SendQueue.LedgerBalances` | ven/include/ven/net/sov_pool.h:50-97 | every call, on any of the sessions, keeps batches in total = free + (1 + pop count) summed over the live sessions; a step of batches is made exactly when one is wanted and none is free |
| `SendQueue.LedgerAlwaysBalances` | ven/include/ven/net/sov_pool.h:21-97 | so over every run from `init` the ledger balances |
| `SendQueue.BufArray.constructor` | ven/include/ven/net/buf_array.h:24-38 | an empty batch of the given capacity |
| `SendQueue.BufArray.IsFull` | ven/include/ven/net/buf_array.h:72-75 | true exactly when the contents fill the capacity |
| `SendQueue.BufArray.Empty` | ven/include/ven/net/buf_array.h:77-80 | true exactly when there are no contents |
| `SendQueue.BufArray.PushBack` | ven/include/ven/net/buf_array.h:40-53 | appends, or refuses (the exception) exactly when full |
| `SendQueue.BufArray.Clear` | ven/include/ven/net/buf_array.h:87-93 | releases each slot once, in order, and empties the batch |
| `SendQueue.SovPool.constructor` | ven/include/ven/net/sov_pool.h:21-30 | the initial batches are free, fresh and counted |
| `SendQueue.SovPool.Create` | ven/include/ven/net/sov_pool.h:84-97 | adds that many fresh empty batches with slots of their own, and keeps total = free + lent; no two batches share slots |
| `SendQueue.SovPool.PopSov` | ven/include/ven/net/sov_pool.h:50-59 | lends an empty batch nobody had, whose slots are no other batch's; null exactly when none is free and the step is 0 |
| `SendQueue.SovPool.PushSov` | ven/include/ven/net/sov_pool.h:61-71 | takes a lent batch back to the front of the free list |
| `SendQueue.SBuf.constructor` | ven/include/ven/net/sbuf.h:21-27 | a queue with an empty current batch, new or from the free list, and nobody else's batches touched |
| `SendQueue.SBuf.PushBuf` | ven/include/ven/net/sbuf.h:41-47 | a Buf goes to the end of the current batch, an empty Buf nowhere; with room, as `PushPop` leaves it, `push_back` does not throw |
| `SendQueue.SBuf.PopBatch` | ven/include/ven/net/sbuf.h:49-61 | hands out the current batch with its contents exactly when nothing is in flight or it is full, and starts a new one from the pool; what others hold stays lent |
| `SendQueue.SBuf.PushPop` | ven/include/ven/net/session_tcp.h:102-105 | the locked section of `send`: says which batch goes out, and that it is in flight; afterwards there is room again |
| `SendQueue.SBuf.TakeBack` | ven/include/ven/net/sbuf.h:73-77 | a batch in flight, cleared, is one of the pool again and no longer in flight; what others hold stays lent |
| `SendQueue.SBuf.Back` | ven/include/ven/net/session_tcp.h:328-335 | the locked section of `_on_send`: a batch in flight returns, and the result says whether Bufs wait with nothing in flight |
| `SendQueue.SBuf.Uninit` | ven/include/ven/net/sbuf.h:29-39 | with nothing in flight, the pool has lent only what others hold, and the queue has no current batch |
| `SendQueue.SBuf.HandOut` | ven/include/ven/net/sbuf.h:57-60 | the current batch is in flight and an empty one of the pool takes its place |
| `SendQueue.SendTwice` | ven/include/ven/net/session_tcp.h:94-112 | two sends and two completions one after another: the queue is empty and idle again, with one batch of its own |
| `SendQueue.WholeSession` | ven/include/ven/net/sbuf.h:21-39 | from `init` over two sends to `uninit`, the pool ends with exactly the batches lent that were lent before |
| `SendQueue.SendBeside` | ven/include/ven/net/session_tcp.h:102-105 | of two sessions over one pool, a send on one leaves the queue, the batches and the contents of the other as they were, and the two still share nothing |
| `SendQueue.BackBeside` | ven/include/ven/net/session_tcp.h:328-335 | so does a completion |
| `SendQueue.Interleave` | ven/include/ven/net/session_tcp.h:94-112 | two sessions send in turn and their batches come back in turn: each queue ends as if it were alone |
| `SendQueue.TwoSessions` | ven/include/ven/net/sbuf.h:21-27 | and they get there from `init` of both on one pool |
| `SendQueue.ObjectsBalance` | ven/include/ven/net/sov_pool.h:50-97 | the pool object and the queue objects of any number of live sessions, among which the batches lent are divided, are a ledger that balances |
| `PacketStream.ParseConserves` | ven/include/ven/net/session_tcp.h:281-324 | the packets found, then the rest, are the bytes of the stream |
| `PacketStream.ParsedSizes` | ven/include/ven/net/session_tcp.h:284-303 | each packet is as long as the size read where it starts, between 1 and 131072 bytes |
| `PacketStream.RestIsNoPacket` | ven/include/ven/net/session_tcp.h:284-310 | what is left starts no packet: too short for a header or for its own size, or of size 0 or above 131072 |
| `PacketStream.ParseMore` | ven/include/ven/net/session_tcp.h:281-323 | bytes that arrive later change nothing already found; parsing goes on from the rest |
| `PacketStream.ParsePackets` | ven/include/ven/net/session_tcp.h:281-303 | a stream of complete packets is split into exactly those |
| `UnitClasses.RoundUpFits` | ven/include/ven/mem/mem_pool.h:82-91 | a request gets the smallest configured unit that holds it, or exactly its size above the largest |
| `UnitClasses.ClassOfUnit` | ven/include/ven/mem/mem_pool.h:105-112 | a block's own unit leads back to the class it is of |
| `UnitClasses.RoundUpMonotone` | ven/include/ven/mem/mem_pool.h:82-91 | a larger request gets no smaller block |
| `UnitClasses.RoundUpIdempotent` | ven/include/ven/mem/mem_pool.h:82-91 | a block's own size is a request it serves exactly |
| `ReceiveBuffer.ChangeFits` | ven/include/ven/net/rbuf.h:83-95 | the new block of `change` holds the bytes it copies and stays within the capacity bound |
| `ReceiveBuffer.CheckSizeFits` | ven/include/ven/net/rbuf.h:36-43 | afterwards the block holds the packet at hand and the data is unchanged; a block that held it is kept, another is the smallest the pool has for two such packets |
| `ReceiveBuffer.CheckArrangeLeavesRoom` | ven/include/ven/net/rbuf.h:45-58 | at least one byte of room is left and the data is unchanged; data smaller than the default size is in a block for that size, and the block is freshly filled or has room for more than a header; a block of which this was so before is kept, if the default size is one of the pool |
| `ReceiveBuffer.RearrangeLeavesRoom` | ven/include/ven/net/session_tcp.h:306-312 | so do both together, although the second may undo the growth of the first, which it does only for data smaller than the default size |
| `ReceiveBuffer.ReceiveKeeps` | ven/include/ven/net/session_tcp.h:273-324 | one receive keeps the bounds and leaves what the whole-stream parser leaves |
| `ReceiveBuffer.AlwaysRoom` | ven/include/ven/net/rbuf.h:36-95 | over every connection each posted receive has room for a byte, the block never exceeds the pool rounding of max(default size, 256K), has shrunk back when the data is smaller than the default size, and is exchanged before it fills up |
| `ReceiveBuffer.SmallBlockFills` | ven/include/ven/net/rbuf.h:45-58 | a block smaller than the header fills up, and the next receive has no room |
| `ReceiveBuffer.RoomExactlyWhenHeaderFits` | ven/include/ven/net/rbuf.h:45-58 | there is always room if and only if the block given for the default size holds a header |
| `ReceiveBuffer.ChunkingIndependence` | ven/include/ven/net/session_tcp.h:281-323 | however the stream is cut into chunks, the packets delivered and the bytes kept are those the parser finds in the whole stream, up to the first invalid size |
| `ReceiveHandler.RBuf.constructor` | ven/include/ven/net/rbuf.h:60-73 | an empty window at the start of a block for the default size |
| `ReceiveHandler.RBuf.RemainLen` | ven/include/ven/net/rbuf.h:26 | the room from the tail to the end of the block |
| `ReceiveHandler.RBuf.OsWrite` | ven/include/ven/net/session_tcp.h:354-371 | the system writes the chunk at the tail and no other byte |
| `ReceiveHandler.RBuf.ChangeTo` | ven/include/ven/net/rbuf.h:83-95 | the copying loop gives a fresh block with the unconsumed bytes at its start |
| `ReceiveHandler.RBuf.EnsureSize` | ven/include/ven/net/rbuf.h:36-43 | the array form does what `CheckSize` says |
| `ReceiveHandler.RBuf.Arrange` | ven/include/ven/net/rbuf.h:45-58 | the array form does what `CheckArrange` says |
| `ReceiveHandler.RBuf.MakeRoom` | ven/include/ven/net/session_tcp.h:306-312 | the array form does what `Rearrange` says |
| `ReceiveHandler.Receiver.TakePacket` | ven/include/ven/net/session_tcp.h:283-303 | one round of the loop delivers the slice of a whole packet and moves the head, or finds what else is there |
| `ReceiveHandler.Receiver.TakePackets` | ven/include/ven/net/session_tcp.h:283-310 | the loop ends, and has delivered what the whole-stream parser finds in the data |
| `ReceiveHandler.Receiver.OnRecv` | ven/include/ven/net/session_tcp.h:273-324 | the handler over arrays refines `Receive`; an error or no bytes disconnects with that error, an invalid size with 16000 |
| `ReceiveHandler.Receiver.ReceiveChunk` | ven/include/ven/net/session_tcp.h:273-371 | a posted receive and its completion do what `Receive` says |
| `ReceiveHandler.ReceiveConnection` | ven/include/ven/net/session_tcp.h:273-371 | a receiver over arrays, from `init` on, gets to the state `ReceiveAll` gives for all the chunks of the connection |
| `BufMemory.GetExact` | ven/include/ven/mem/buf.h:18-26 | a new Buf over a block nobody holds keeps every count exact |
| `BufMemory.CopyExact` | ven/include/ven/mem/buf.h:28-36 | so does copying a Buf, and the copy refers to the same bytes |
| `BufMemory.DestroyExact` | ven/include/ven/mem/buf.h:38-41 | so does destroying one |
| `BufMemory.AssignExact` | ven/include/ven/mem/buf.h:43-55 | so does assignment, self-assignment included |
| `BufMemory.SwapExact` | ven/include/ven/mem/buf.h:57-62 | so does `swap`, which exchanges what the two refer to |
| `BufMemory.PushBackExact` | ven/include/ven/net/buf_array.h:40-53 | so does `push_back` with `dettach`, which changes no count |
| `BufMemory.ClearBatchExact` | ven/include/ven/net/buf_array.h:87-93 | so does `clear`, which releases every slot once and nothing else |
| `BufMemory.HeldIsUsed` | ven/include/ven/mem/mem.h:18-33 | a held block has a positive count and is not in the pool |
| `BufMemory.ReturnsWithLastHolder` | ven/include/ven/mem/mem.h:23-33 | a block goes to the pool exactly when its last holder goes |
| `BufObjects.Mem.AddRef` | ven/include/ven/mem/mem.h:18-21 | the count is the number of holders, one more |
| `BufObjects.BlockPool.Release` | ven/include/ven/mem/mem.h:23-33 | one holder fewer, and the block comes back at 0 |
| `BufObjects.BlockPool.Take` | ven/include/ven/mem/mem_pool.h:82-103 | a block of the size asked that nobody holds, one of the free ones or new, with the counts of all others exact |
| `BufObjects.BlockPool.Get` | ven/include/ven/mem/buf.h:18-26 | a new Buf is the only holder of a block that was free or is new |
| `BufObjects.BlockPool.Copy` | ven/include/ven/mem/buf.h:28-36 | a new Buf refers to the same bytes, counts exact |
| `BufObjects.BlockPool.Destroy` | ven/include/ven/mem/buf.h:38-41 | the block is in the pool afterwards exactly when this Buf was its only holder |
| `BufObjects.BlockPool.Assign` | ven/include/ven/mem/buf.h:43-55 | release, then take over, self-assignment included; the other Buf is as before |
| `BufObjects.BlockPool.Hand` | ven/include/ven/mem/buf.h:64-71 | `dettach` into another Buf moves the reference and changes no count |
| `BufObjects.BlockPool.Swap` | ven/include/ven/mem/buf.h:57-62 | exchanges what the two Buf objects refer to, counts exact |
| `BufObjects.BlockPool.PushBack` | ven/include/ven/net/buf_array.h:40-53 | the slot refers to what the Buf referred to, and the Buf to nothing |
| `BufObjects.BlockPool.Clear` | ven/include/ven/net/buf_array.h:87-93 | the loop leaves every slot empty, counts exact |
| `BufObjects.CountIsHolders` | ven/include/ven/mem/mem.h:18-33 | the count of a block is the number of Buf objects that refer to it, and it is in the pool exactly when none does |
| `BufObjects.SendCopy` | ven/include/ven/net/buf_array.h:40-93 | a Buf is copied, sent and its batch cleared: the copy alone holds the block, which stays out of the pool |
| `ZeroCopy.OpKeeps` | ven/include/ven/net/session_tcp.h:295-303 | every operation of user, queue, system and receive buffer keeps each Buf clear of the window still being written and reading as when it was given |
| `ZeroCopy.OpDoes` | ven/include/ven/mem/buf.h:18-71 | every operation of user, queue, system and receive buffer does to every Buf what it should, and to no other anything: which slice of which block each refers to afterwards |
| `ZeroCopy.OpFills` | ven/include/ven/net/rbuf.h:83-95 | the bytes of every block stay, but for those of the block an operation fills and for the byte the system writes |
| `ZeroCopy.ChangeKeepsData` | ven/include/ven/net/rbuf.h:83-95 | `change` through a local Buf leaves one holder of the new block and the same data in the window |
| `ZeroCopy.BytesStay` | ven/include/ven/net/session_tcp.h:295-303 | the bytes of a Buf stay the same as long as it is held, over every run of later receives, buffer changes, pool reuse and operations on other Bufs |
| `ZeroCopy.HeldReadsAsGiven` | ven/include/ven/net/session_tcp.h:295-303 | over every run of any operations from the start, counts and pool are exact and every Buf anybody holds reads as when it was given |
| `ZeroCopy.GivenFromWindow` | ven/include/ven/net/session_tcp.h:295-303 | what `on_recv` is given are the bytes at the head of the window, which moves behind them |
| `ZeroCopy.HeldNotReissued` | ven/include/ven/mem/mem.h:23-33 | the blocks the pool can issue are exactly those nobody holds |
| `PacketBuffers.NoteKeeps` | ven/include/ven/net/session_tcp.h:281-324 | over every run, what was given to `on_recv` and then the window are all that arrived, in order, and each Buf that came from a packet is noted with that packet's bytes |
| `PacketBuffers.LogIsParsed` | ven/include/ven/net/session_tcp.h:281-310 | what was given are the first packets the whole-stream parser finds in all that arrived; all of them once the window starts no whole packet |
| `PacketBuffers.HeldIsItsPacket` | ven/include/ven/net/session_tcp.h:281-303 | on every connection and over every run, with any chunks, buffer exchanges and operations of users: a Buf that is, or is a copy of, the `i`-th one given reads as `Parse(header, Concat(chunks)).packets[i]` for as long as anybody holds it |
| `WireValue.EntriesExact` | ven/include/ven/mem/buf.h:250-273 | in any iteration order, the first entry with its key is in the map with its value |
| `WireValue.EntriesOnly` | ven/include/ven/mem/buf.h:250-273 | and has no other key |
| `WireValue.Encode` | ven/include/ven/mem/sizer.h:13-81 | the bytes of an object are as many as its size |
| `WireValue.RoundTrip` | ven/include/ven/mem/buf.h:92-342 | for every nested object, reading at a position what was written there, into an empty target, gives its value and advances by its size, whatever bytes follow |
| `WireValue.RoundTripFields` | ven/include/ven/mem/archive.h:43-58 | so it does for a row of fields of different types |
| `WireValue.ReadsNothing` | ven/include/ven/mem/buf.h:105-115 | where not even a count, or a fixed object, is left, `get` gives an empty object and does not advance |
| `WireValue.ReadsInside` | ven/include/ven/mem/buf.h:105-342 | `get` advances only over bytes that are there, whatever they are; it looks at none behind them unless it comes to a string or its 32-bit check wraps |
| `WireValue.ReadsWhole` | ven/include/ven/mem/buf.h:171-190 | from a row cut short, as many objects as are there in full are read, each with its bytes, and the others are unset |
| `Archive.SizeOf` | ven/include/ven/mem/sizer.h:13-81 | the 32-bit accumulation gives the size modulo 2^32 |
| `Archive.SizeOfElements` | ven/include/ven/mem/sizer.h:31-81 | so do the loops over containers |
| `Archive.Buf.PutBytes` | ven/include/ven/mem/buf.h:117-122 | copies the bytes to the position and changes no other byte |
| `Archive.Buf.Write` | ven/include/ven/mem/buf.h:142-151 | an object that fits is written in its range, and no other byte changes |
| `Archive.Buf.WriteElements` | ven/include/ven/mem/buf.h:173-342 | the count, then each element behind the one before; none takes the way out |
| `Archive.Buf.WriteNext` | ven/include/ven/mem/buf.h:180-182 | one element more is written, and the position is behind it |
| `Archive.Buf.Set` | ven/include/ven/mem/buf.h:92-101 | writes and returns the size if and only if the object fits; one that does not is refused with 0, unless its end wraps around 2^32 to a position inside the buffer |
| `Archive.PutExactly` | ven/include/ven/mem/buf.h:92-101 | the 32-bit check lets exactly the objects through that fit, and, at 2^32 bytes and more, those whose end wraps around |
| `Archive.Buf.GetFixed` | ven/include/ven/mem/buf.h:105-115 | reads a fixed object, or nothing when the 32-bit check fails |
| `Archive.Buf.GetCount` | ven/include/ven/mem/buf.h:331-336 | reads a count |
| `Archive.Buf.Get` | ven/include/ven/mem/buf.h:105-313 | reads what `ReadVal` says at the position |
| `Archive.Buf.GetSeq` | ven/include/ven/mem/buf.h:154-273 | the loop reads what `ReadSeq` says |
| `Archive.Archive.constructor` | ven/include/ven/mem/archive.h:20-22 | starts at position 0 in the given mode, Read by default |
| `Archive.Archive.SetBuf` | ven/include/ven/mem/archive.h:26-31 | takes the buffer and starts again at 0 |
| `Archive.Archive.AddSize` | ven/include/ven/mem/archive.h:43-49 | Size mode: the cursor advances by the size modulo 2^32 |
| `Archive.Archive.AddBytes` | ven/include/ven/mem/archive.h:50-52 | Write mode: an object that fits is written at the cursor; one that is refused changes neither cursor nor buffer; when the third case happens is stated |
| `Archive.Archive.TakeVal` | ven/include/ven/mem/archive.h:53-55 | Read mode: the value at the cursor, which advances by what was read |
| `Archive.WithSizeKeepsSize` | ven/include/ven/mem/buf_conv.h:24-25 | a `set_size` that stores the length in a first field of four bytes keeps the size, as `MakeBuf` needs |
| `Archive.Packet.SizePass` | ven/include/ven/mem/buf_conv.h:20-24 | the Size pass ends at the size of all fields modulo 2^32 |
| `Archive.Packet.WritePass` | ven/include/ven/mem/buf_conv.h:35-38 | when the fields fit, the Write pass ends at their size, having written exactly their encoding |
| `Archive.Packet.MakeBuf` | ven/include/ven/mem/buf_conv.h:18-39 | for any `set_size`: the Buf has the size counted modulo 2^32, and holds the encoding of the fields if and only if that is still their size; there is none for size 0 or when the pool gives none |
| `Archive.Packet.MakeFrom` | ven/include/ven/mem/buf_conv.h:41-46 | reads the fields one after another as `ReadFields` says |
| `WireTheorem.MakeBufGivesFrame` | ven/include/ven/mem/buf_conv.h:18-39 | a packet with a length field in front is encoded to a frame whose length field is the length of the frame |
| `WireTheorem.FrameComplete` | ven/include/ven/net/session_tcp.h:120-133 | a frame of a valid size is a complete packet for the receiver |
| `WireTheorem.FrameRoundTrip` | ven/include/ven/mem/buf_conv.h:18-46 | reading a frame gives the length and the fields back and reads all of it |
| `WireTheorem.ThreeModesAgree` | ven/include/ven/mem/archive.h:43-58 | what the Write pass leaves in a block: bytes behind the size are untouched, and the values come back from it |
| `WireTheorem.PackAndUnpack` | ven/include/ven/mem/buf_conv.h:18-46 | the three passes over one packet object: the Buf is as long as the Size pass counted, and the Read pass gives its fields back and ends where the Write pass did |
| `WireTheorem.EndToEnd` | ven/include/ven/net/session_tcp.h:273-324 | for every list of packets and every cut of their bytes into chunks, `on_recv` gets exactly the frames, in order, and each gives back the fields it was made of |
| `SessionPool.CreateKeeps` | ven/include/ven/net/session_pool.h:134-144 | new sessions are free, distinct and counted |
| `SessionPool.PopGives` | ven/include/ven/net/session_pool.h:107-132 | a session nobody has, the one in front if one is free, else after creating `inc_cnt_`, or what is left of the configured count; none exactly when as many are in use as the configuration ever allows |
| `SessionPool.PushKeeps` | ven/include/ven/net/session_pool.h:91-104 | a session that comes back is free and no longer in use |
| `SessionPool.PushThenPop` | ven/include/ven/net/session_pool.h:80-104 | a session that comes back is the next one given, and nothing else has changed then |
| `SessionPool.SessionPool.constructor` | ven/include/ven/net/session_pool.h:29-42 | `pre_cnt_` free sessions |
| `SessionPool.SessionPool.CreateSessions` | ven/include/ven/net/session_pool.h:134-144 | the loop creates as `Create` says |
| `SessionPool.SessionPool.PopSession` | ven/include/ven/net/session_pool.h:80-119 | updates the fields as `Pop` says |
| `SessionPool.SessionPool.PushSession` | ven/include/ven/net/session_pool.h:91-104 | updates the fields as `Push` says |
| `AcceptorInvariants.StepPlaces` | ven/include/ven/net/acceptor.h:97-161 | each statement of each handler, on any thread, leaves every accept object and every session in exactly the place it is noted in, and every thread with what it carries |
| `AcceptorInvariants.StepNumbers` | ven/include/ven/net/acceptor.h:97-161 | and keeps how many objects and sessions there are in each place, and how far each counter is from what it counts |
| `AcceptorInvariants.RunKeepsInv` | ven/include/ven/net/acceptor.h:64-161 | hence every run of the server does, with any number of threads |
| `AcceptorTheorems.ServerConserves` | ven/include/ven/net/server.h:70-76 | over every interleaving each accept object is pooled, pending, dropped by a failed `acceptex` or with one thread, and each session free, accepting, connected, dropped or with one thread: in exactly one place, once; each counter differs from what it counts by the threads that stand between a change and its count; no more sessions than configured |
| `AcceptorTheorems.UninitFindsAll` | ven/include/ven/net/acceptor.h:41-52 | where the accepting count is 0, as `uninit` waits for, all accept objects are in the pool if and only if no thread stands between taking one and counting it or between its completion and its return, and none was dropped |
| `AcceptorTheorems.ZeroTooEarly` | ven/include/ven/net/acceptor.h:41-52 | the run where `uninit` reads 0 and finds the pool empty, and the object comes back with the next statement |
| `AcceptorTheorems.ReleaseStopsAccepting` | ven/include/ven/net/acceptor.h:41-52 | once `is_release_` is set, each thread calls `acceptex` at most once more, and only if it had passed the test of it before |
| `AcceptorSaturation.AcceptsSaturate` | ven/include/ven/net/acceptor.h:104-161 | with that guard or one thread, from `listen` to release, whenever no handler is at work: exactly min(accept objects not dropped or in a callback, sessions allowed - dropped - connected) accepts are pending |
| `AcceptorSaturation.LosesWakeup` | ven/include/ven/net/acceptor.h:113-126 | without the guard, two threads, one accept object and one session: a run ends with no handler at work, both idle in their pools, and nothing pending |
| `AcceptorSaturation.ListenIsCut` | ven/include/ven/net/acceptor.h:104-136 | an `acceptex` that fails outright ends `accept_all`: a run of `listen` leaves an object idle with a session free |
| `AcceptorSaturation.SaturatesExactlyWhen` | ven/include/ven/net/acceptor.h:104-161 | for all configurations and runs no object is idle at rest that could be used, if and only if the guard is kept or there is one thread, and `acceptex` does not fail outright, or no thread runs |
| `AcceptorAlone.LoneAccept` | ven/include/ven/net/acceptor.h:113-136 | the statements of `accept`, when no other thread comes between, do what `Accept` says |
| `AcceptorAlone.LoneAcceptAll` | ven/include/ven/net/acceptor.h:104-111 | those of `accept_all` what `AcceptAll` says |
| `AcceptorAlone.LoneListen` | ven/include/ven/net/acceptor.h:64-95 | those of `listen` what `Listened` says |
| `AcceptorAlone.LoneDisconnected` | ven/include/ven/net/acceptor.h:97-102 | those of `disconnected` what `Disconnected` says |
| `AcceptorAlone.LoneBegan` | ven/include/ven/net/acceptor.h:138-154 | those of `on_event` up to the callback what `Began` says |
| `AcceptorAlone.LoneEnded` | ven/include/ven/net/acceptor.h:156-161 | those from the callback on what `Ended` says |
| `AcceptorAlone.LoneFailed` | ven/include/ven/net/acceptor.h:138-161 | those of `on_event` with an error what `FailedEvent` says |
| `Acceptor.EndedAcceptsAgain` | ven/include/ven/net/acceptor.h:156-160 | the object of an accept that has ended is the next one accepted on, as soon as a session can be had |
| `Acceptor.DisconnectedAcceptsAgain` | ven/include/ven/net/acceptor.h:97-102 | a session that comes back is accepted again at once, on the object in front, if one is idle |
| `Acceptor.AcceptAllTakes` | ven/include/ven/net/acceptor.h:104-136 | `accept_all` takes min(idle objects, sessions to be had) objects, or those up to the first `acceptex` that fails outright and that one too; all but that one become pending and are counted |
| `Acceptor.CloseOneMore` | ven/include/ven/net/acceptor.h:153 | the disconnects a callback makes take effect in its order |
| `Acceptor.Acceptor.constructor` | ven/include/ven/net/acceptor.h:27-39 | the loop pools the accept objects |
| `Acceptor.Acceptor.AcceptOne` | ven/include/ven/net/acceptor.h:113-136 | all five ways out: the object and a session pending and counted, the object back where it was, both dropped where `acceptex` fails outright, or nothing, as `Accept` says |
| `Acceptor.Acceptor.AcceptEach` | ven/include/ven/net/acceptor.h:104-111 | the loop does what `AcceptAll` says, up to the first `acceptex` that fails outright |
| `Acceptor.Acceptor.ListenOn` | ven/include/ven/net/acceptor.h:93-94 | accepts on all objects, as `Listened` says |
| `Acceptor.Acceptor.OnDisconnected` | ven/include/ven/net/acceptor.h:97-102 | the count, the session back in front of the pool, and `accept_all`, in that order |
| `Acceptor.Acceptor.BeginEvent` | ven/include/ven/net/acceptor.h:147-150 | the session of the accept is connected and counted before the callback, the object not yet back |
| `Acceptor.Acceptor.Callback` | ven/include/ven/net/acceptor.h:153 | any disconnects made inside `on_conn` |
| `Acceptor.Acceptor.EndEvent` | ven/include/ven/net/acceptor.h:156-160 | the count, the object back in front of the pool, and one `accept`, in that order |
| `Acceptor.Acceptor.OnEvent` | ven/include/ven/net/acceptor.h:138-161 | the handler is `FailedEvent`, or `Began` and `Ended` with the disconnects of the callback in between |
| `Acceptor.Acceptor.State` | ven/include/ven/net/server.h:70-76 | reports the sessions created, the free ones, and the two counters |
| `LfStack.StepKeeps` | ven/include/ven/util/lfstack.h:43-75 | a load, store or swap whose link is clean is a step of the sequential stack and keeps chain, ownership and count |
| `LfStack.CleanRunsLinearise` | ven/include/ven/util/lfstack.h:43-75 | for any threads and interleaving with clean links, the run is one of a sequential last-in-first-out stack and the chain from the head is that stack |
| `LfStack.NoNodeLost` | ven/include/ven/util/lfstack.h:43-75 | every node is with the users, in the stack once, or in the one call that carries it |
| `LfStack.CountAtRest` | ven/include/ven/util/lfstack.h:77-80 | when no call is under way `cnt_` is the length modulo 2^32 |
| `LfStack.EachCallOnce` | ven/include/ven/util/lfstack.h:43-75 | each call of `push` or `pop` takes effect exactly once, between its beginning and its return, with clean links or not |
| `LfStack.PopCount` | ven/include/ven/util/lfstack.h:59-75 | `pop_cnt_` is the number of nodes popped, modulo 2^64 |
| `LfStack.LonePush` | ven/include/ven/util/lfstack.h:43-57 | a `push` nobody interferes with links its node on top and counts it |
| `LfStack.LonePop` | ven/include/ven/util/lfstack.h:59-75 | a `pop` nobody interferes with takes the top, clears its link and counts |
| `LfStack.FinishesAlone` | ven/include/ven/util/lfstack.h:43-75 | wherever in a call a thread is, and whatever others have done since it loaded, it returns within 9 statements once nobody interferes: a swap that fails loads again |
| `LfStack.UnguardedLosesNode` | ven/include/ven/util/lfstack.h:59-75 | two threads and two nodes suffice to lose a node when a node is pushed again while another `pop` holds it |
| `LfStack.LinearisesExactlyWhen` | ven/include/ven/util/lfstack.h:43-75 | every run is one of a stack if and only if the users keep that guard, or there are fewer than two threads or fewer than two nodes |
| `SList.SList.constructor` | ven/include/ven/util/slist.h:14 | the empty list |
| `SList.SList.Pop` | ven/include/ven/util/slist.h:33-51 | takes the first node off and clears its link; the rest stays chained, without repetition and ending in null |
| `SList.SList.Push` | ven/include/ven/util/slist.h:53-65 | puts the node in front |
| `SList.SList.PopMany` | ven/include/ven/util/slist.h:67-87 | splits the first `cnt` nodes, or all there are, off into the other list, both chained |
| `SList.SList.CutBehind` | ven/include/ven/util/slist.h:78-86 | the list behind a node is cut off, and the two have no node in common |
| `SList.SList.PushAll` | ven/include/ven/util/slist.h:89-103 | splices the other list in front and leaves it empty |
| `SList.ChainedCut` | ven/include/ven/util/slist.h:67-87 | clearing one link inside a chain makes two chains |
| `SList.ChainedJoin` | ven/include/ven/util/slist.h:95-100 | setting one chain's last link to another's first node makes one chain |
| `MemPool.EffectiveIsValid` | ven/include/ven/mem/mem_pool.h:52-63 | the sizes and counts used are those given, or the four of 1K to 8K if none are; they are in increasing order and there is one |
| `MemPool.NewMemsOk` | ven/include/ven/mem/mem_pool.h:153-163 | blocks made in a loop are new, distinct and of the size, the last one first |
| `MemPool.GetUnitKeeps` | ven/include/ven/mem/mem_pool.h:93-102 | a block nobody has leaves the free list, after making more when it is empty |
| `MemPool.GetGives` | ven/include/ven/mem/mem_pool.h:82-103 | a block nobody has, of the smallest unit that holds the request or of exactly its size above the largest; none exactly when no such block is free and the step is 0 |
| `MemPool.RetKeeps` | ven/include/ven/mem/mem_pool.h:105-121 | the block goes in front of the free list of its own unit, or is deleted above the largest |
| `MemPool.GetLeavesOthers` | ven/include/ven/mem/mem_pool.h:82-103 | a request puts the block given into a user's hands, and no other block changes hands |
| `MemPool.RetLeavesOthers` | ven/include/ven/mem/mem_pool.h:105-121 | a return takes the block returned out of them, and no other |
| `MemPool.PoolConserves` | ven/include/ven/mem/mem_pool.h:123-137 | after any requests and returns, per size total = free + in users' hands, no free block is in use, and with steps of at least 1 no request is refused |
| `MemPool.GrowsOnDemand` | ven/include/ven/mem/mem_pool.h:93-163 | over every run a size has the blocks it started with and `step_cnt_` for every request that found none free, and one step fewer would not have done for the most blocks ever in use at one time |
| `MemPool.MemPool.constructor` | ven/include/ven/mem/mem_pool.h:52-80 | the loops chain the lists as `Init` says, with the configuration given if there is one; no block is in two of them |
| `MemPool.UnitPool.constructor` | ven/include/ven/mem/mem_pool.h:71-78 | one size: a chain of the first blocks |
| `MemPool.UnitPool.MoreMems` | ven/include/ven/mem/mem_pool.h:158-161 | the loop chains new block objects into an empty list |
| `MemPool.UnitPool.MakeMore` | ven/include/ven/mem/mem_pool.h:153-163 | a step of new blocks is spliced in front, and the total counts them |
| `MemPool.UnitPool.Get` | ven/include/ven/mem/mem_pool.h:93-102 | both looks at the free list, then a step more: the block taken off the chain is the one `GetUnit` gives, unlinked |
| `MemPool.UnitPool.Ret` | ven/include/ven/mem/mem_pool.h:120 | the block is chained in front again |
| `MemPool.UnitPool.UsedNotListed` | ven/include/ven/mem/mem_pool.h:105-121 | no block object in a user's hands is in the chain |
| `MemPool.MemPool.NodesApart` | ven/include/ven/mem/mem_pool.h:52-80 | no block object is of two sizes' lists |
| `MemPool.MemPool.GetMem` | ven/include/ven/mem/mem_pool.h:82-103 | the block object given is the one `Get` says, and every chain is as it says |
| `MemPool.MemPool.RetMem` | ven/include/ven/mem/mem_pool.h:105-121 | the block is chained into the list of its own size, or deleted, as `Ret` says |
| `MemPool.MemPool.State` | ven/include/ven/mem/mem_pool.h:123-137 | reports the totals, the lengths of the chains and the number of blocks in users' hands |
| `MemPool.GetAgain` | ven/include/ven/mem/mem_pool.h:82-121 | a block got and returned is the next one got of its size |
| `ThreadCache.PopThreadMoves` | ven/include/ven/mem/tm/heapt.h:113-119 | a block of the thread's own lists, first the fetched ones |
| `ThreadCache.PopMainMoves` | ven/include/ven/mem/tm/heapt.h:121-131 | a batch moves from the shared list to the thread, and its first block to the user; nothing is lost |
| `ThreadCache.PopNewMoves` | ven/include/ven/mem/tm/heapt.h:133-151 | new blocks are divided between shared list, thread and user; null exactly when either count is 0 |
| `ThreadCache.PushBackMoves` | ven/include/ven/mem/tm/heapt.h:75-89 | a block returned is in one list again, and the free list stays below `push_cnt_` |
| `ThreadCache.ReturnedStays` | ven/include/ven/mem/tm/heapt.h:75-89 | a block returned stays with the thread and is the next one it gets when it has none fetched, as if nothing had been, until there are `push_cnt_` of them; then all of them are in front of the shared list |
| `ThreadCache.OwnFirst` | ven/include/ven/mem/tm/heapt.h:97-119 | a thread with blocks of its own, fetched ones first, touches neither the shared list nor new memory |
| `ThreadCache.FetchesBatch` | ven/include/ven/mem/tm/heapt.h:121-151 | a thread without fetches `pop_cnt_` blocks, or as many as the shared list has, in its order; only when that is empty are `cnt_` made, all but `pop_cnt_` of which go to the shared list |
| `ThreadCache.MadeWhenShort` | ven/include/ven/mem/tm/heapt.h:133-151 | over every run `cnt_` blocks are made at the start and `cnt_` more each time a thread finds a block neither with itself nor in the shared list |
| `ThreadCache.CachesStaySmall` | ven/include/ven/mem/tm/heapt.h:75-151 | over every run a thread keeps fewer than `pop_cnt_` fetched and fewer than `push_cnt_` returned blocks |
| `ThreadCache.PopIsNull` | ven/include/ven/mem/tm/heapt.h:97-111 | null exactly when the cache is empty and nothing can be fetched or made |
| `ThreadCache.GetKeeps` | ven/include/ven/mem/tm/heapt.h:97-111 | each block stays in one place, and the block given was in no user's hands |
| `ThreadCache.RetKeeps` | ven/include/ven/mem/tm/heapt.h:75-89 | a block returned by any thread stays in one place |
| `ThreadCache.PoolConserves` | ven/include/ven/mem/tm/tls_mem_pool.h:65-77 | over any calls by any number of threads, each call one step, each block carved is in exactly one list or one user's hands, free lists are below `push_cnt_`, and `use_` is the number of blocks in users' hands |
| `ThreadCache.GetGivesUnused` | ven/include/ven/mem/tm/heapt.h:67-111 | `get` never gives a block somebody has |
| `ThreadCache.AlwaysGivesExactlyWhen` | ven/include/ven/mem/tm/heapt.h:97-151 | every `get` of every run finds a block if and only if `cnt_` and `pop_cnt_` are at least 1 |
| `ThreadCache.State` | ven/include/ven/mem/tm/tls_mem_pool.h:65-77 | the loop adds up the lists to the reported wait, free and use |
| `ThreadCache.SharedHeap.constructor` | ven/include/ven/mem/tm/heap.h:17-27 | the first blocks are chained in the shared list |
| `ThreadCache.SharedHeap.NewMem` | ven/include/ven/mem/tm/mem_alloc.h:46-55 | the loop chains new blocks into a list and adds them to the total |
| `ThreadCache.ThreadHeap.constructor` | ven/include/ven/mem/tm/heapt.h:34-47 | an empty cache, whose lists are apart from the shared one |
| `ThreadCache.ThreadHeap.PopFromThread` | ven/include/ven/mem/tm/heapt.h:113-119 | the block unlinked is the one `PopThread` gives |
| `ThreadCache.ThreadHeap.PopFromMain` | ven/include/ven/mem/tm/heapt.h:121-131 | a batch is split off the shared chain and spliced into the thread's, as `PopMain` says; the three chains stay disjoint |
| `ThreadCache.ThreadHeap.PopFromNew` | ven/include/ven/mem/tm/heapt.h:133-151 | new blocks are split between the chains as `PopNew` says; they stay disjoint |
| `ThreadCache.ThreadHeap.Pop` | ven/include/ven/mem/tm/heapt.h:97-111 | as `PopAny` says; the block given is in no chain |
| `ThreadCache.ThreadHeap.Push` | ven/include/ven/mem/tm/heapt.h:75-89 | as `PushBack` says, splicing the whole free chain over at the limit |
| `ThreadCache.UsedNotListed` | ven/include/ven/mem/tm/heapt.h:75-151 | no block in a user's hands is chained in a list |
| `ThreadCache.GetHereReturnThere` | ven/include/ven/mem/tm/heapt.h:67-89 | a block one thread gets and another returns: both threads' chains and the shared one follow `Get` and `Ret` and stay disjoint |
| `TlsMemPool.EffectiveIsValid` | ven/include/ven/mem/tm/tls_mem_pool.h:22-37 | the sizes and counts used are those given, or the four of 1K to 8K if none are; they are in increasing order and there is one |
| `TlsMemPool.GetGives` | ven/include/ven/mem/tm/tls_mem_pool.h:39-52 | a block nobody has, of the smallest unit that holds the request or of exactly its size above the largest; when there is none is stated exactly |
| `TlsMemPool.RetKeeps` | ven/include/ven/mem/tm/tls_mem_pool.h:54-63 | a returned block goes to its own class, or is deleted and counted above the largest unit |
| `TlsMemPool.GetLeavesOthers` | ven/include/ven/mem/tm/tls_mem_pool.h:39-52 | a request puts the block given into a user's hands, and no other block changes hands |
| `TlsMemPool.RetLeavesOthers` | ven/include/ven/mem/tm/tls_mem_pool.h:54-63 | a return takes the block returned out of them, and no other |
| `TlsMemPool.ClassesApart` | ven/include/ven/mem/tm/tls_mem_pool.h:39-63 | over every run each class is what the requests and returns of its sizes alone make of a class with the counts configured for it |
| `TlsMemPool.PoolReports` | ven/include/ven/mem/tm/tls_mem_pool.h:65-77 | after any calls by any threads, each call one step: in every class each block is in one place and the reported use is exact; the two exceed counters differ by the larger blocks in use |
| `SlabAlloc.SetMemList` | ven/include/ven/mem/tm/mem_alloc.h:59-72 | the carving loop puts piece `i` at its place, header before block, and lists the last first |
| `SlabAlloc.PiecesApart` | ven/include/ven/mem/tm/mem_alloc.h:59-72 | pieces of one slab are disjoint |
| `SlabAlloc.PiecesEnd` | ven/include/ven/mem/tm/mem_alloc.h:59-72 | the pieces lie below an end if and only if all of them together do |
| `SlabAlloc.SlabHoldsExactlyWhen` | ven/include/ven/mem/tm/mem_alloc.h:46-80 | the slab `new_mem` allocates holds its pieces if and only if `unit * cnt` is below 2^32 |
| `SlabAlloc.LargeSlabTooSmall` | ven/include/ven/mem/tm/mem_alloc.h:74-80 | 4096 blocks of 1 MB get a slab with room for the headers only |
| `SlabAlloc.HeapHoldsExactlyWhen` | ven/include/ven/mem/tm/mem_alloc.h:23-44 | the shared heap's slab holds all classes if and only if each of them is below 2^32 bytes |
| `SlabAlloc.HeapPiecesApart` | ven/include/ven/mem/tm/mem_alloc.h:23-44 | pieces of different classes are disjoint |
| `SlabAlloc.MemAlloc.NewMem` | ven/include/ven/mem/tm/mem_alloc.h:46-55 | carves one slab, and adds its blocks to the total of the unit and to no other |
| `SlabAlloc.MemAlloc.NewMemForHeap` | ven/include/ven/mem/tm/mem_alloc.h:23-44 | the two loops size up and carve the classes one behind the other, and each unit's total grows by its blocks |
| `SlabAlloc.BlocksOfClass` | ven/include/ven/mem/tm/mem_alloc.h:23-44 | with distinct units that is the count configured for it |

## Left out

- Winsock, IOCP, threads, timers, logging, services: completions are events that may come at any time; error codes are parameters.
- Interleavings across the reuse of a session: a completion thread of one connection may act on the next. The lifecycle covers one connection; the acceptor's step machine covers reuse, with `disconnected` and `on_event` the only calls that reach it.
- The lifecycle begins after `_on_conn_init` has set the flags; a `disconnect` before that finds the session not connected and does nothing.
- The session lifecycle, `LFStack` and the threads of the acceptor are step machines on values, not classes: aliasing of the objects is not modelled there.
- `update_accept_context` and `disconnectex` failing outright, and the answers of `set_reuse`, `bind` and their like that end `listen` before it accepts.
- AcceptorTheorems.UninitFindsAll: `uninit` is what it sees when it reads the count; its deleting of the objects is not a step, so what a handler does with a deleted object is not modelled.
- `SessionPool::uninit` and the order of the pool lock and the session lock: no claim about deadlock.
- Client sessions and `connectex`; UDP sessions; the address map; `Time`; `BufArray::swap`.
- What `send` returns: the model has what becomes of the Buf.
- The order of bytes on the wire when several batches are in flight, since `WSASend` is called outside the lock: only the pop order is proved.
- Decoding into targets that are not empty (strings keep their old value when the count is 0, vectors append), and decoding buffers that were not written by the serializer: `ReadVal` says `Overrun` where the code would read past the end.
- Archive.Buf.Set: when the end of an object wraps around 2^32 to a position inside the buffer, what is then written is not modelled, only that this happens. `WireTheorem` is about sizes below 2^32.
- Archive.Archive.AddBytes: the same third case, stated as when it happens and not as what the buffer is afterwards.
- BufObjects.BlockPool.Take: blocks have the size asked; the size classes, and the empty Buf the pool gives when its step is 0, are those of `MemPool`.
- Counters of 32 bits that would wrap: `cnt_` of `SList`, `ref_` of `Mem`, and the counters of pools and acceptor are unbounded, and `accepting_cnt_`, which a completion can take below 0 for a moment, is then negative and not 2^32 - 1; `cnt_` and `pop_cnt_` of `LFStack` do wrap, as in a 64-bit build.
- `MemPool::exceed_new_` and `exceed_del_` are never changed by the code, so `state` reports 0 for both; the model has no such fields.
- MemPool.UnitPool.Get: one call is one step, so the second look at the free list under the lock, which the method makes as the code does, finds what the first found.
- ThreadCache.GetKeeps: one `get` or `ret` is one step, although the code locks only the shared list; caches belong to one thread each. `state_.units_[unit].total_ += cnt` (`mem_alloc.h:53`) is an update by any thread under no lock: two `pop_from_new` at the same time can lose one of the two additions, and the `use_` reported for that unit (`tls_mem_pool.h:74`) is then wrong for good.
- ThreadCache.AlwaysGivesExactlyWhen: where no block is found the code goes on with a null pointer; the model answers None.
- SlabAlloc.SetMemList: addresses are numbers, and `size_t` of a 64-bit build does not wrap.
- Acceptor.Acceptor.AcceptOne: the outcome of `acceptex` is a parameter; a dropped accept object and its session are kept in `lost`, which the code does not have, so that conservation can be stated.
- The free lists of sessions and accept objects are sequences here, not chained objects: `SessionPool` and `Acceptor` use `SList` in the code as `MemPool` does.
- The session's own lifetime: `is_release_` and `delete this` of a session not made by the pool.
- SendQueue.SovPool.PopSov: may be null when the step is 0, which `SBuf` does not check; `SBuf.PopBatch` asks for a step of at least 1.
- ReceiveHandler.RBuf.OsWrite: the system writes within the room posted and at no other time than between post and completion.
- Archive.Buf.Get: structures of fixed size are their bytes; padding and byte order are not interpreted, apart from counts and lengths, which are little-endian.
- `WireTheorem.EndToEnd` is about packets that keep their length in a first field of four bytes, which is what the receiver reads; `MakeBuf` takes any `set_size`.
- Destructors of the pools, `del_cnt_`, and the code that is commented out.
