# uring-proactor: a model of its buffer, channel and logging core

This project models the core of uring-proactor, an `io_uring` server library, and proves what its operations
promise. It has two layers.

- *Values.* What an operation does is a function on plain values: a pool is a FIFO of free block numbers and the bytes
  of each block; a channel is a list of pending blocks, a list of submitted blocks and an offset. Protocols are
  transition systems over these values, and the theorems speak of every run: any number of channels, threads or
  producers, any interleaving, any completion.
- *Code.* `BufPool`, `WriteBufBase`, `WriteBufStream`, `NotifyToken`, `TcpChannel`, `MsghdrPool`, `WriteBufDgram`,
  `UdpChannel`, `BufRing` and `ReadBufStream` are classes over arrays with the source's rings, wrapping counters and
  loops. Each method is proved to compute the value-level function, so the theorems carry over to the code.

"Each block is in exactly one place" is counted with multisets. Histories kept as plain byte strings or line lists
(`draft`, `submitted`, `acked`, `received`, `accepted`, ...) are the independent reference with which blocks, rings,
headers and file regions are compared. The histories in turn are tied to the events of the run alone: to the bytes of the
calls and deliveries, the results the kernel reports, the sizes files are opened with. Class fields marked `ghost` hold the
abstract value of an object.

| file | what it holds |
|---|---|
| Bits, Ring | power-of-two masks, 32- and 64-bit counters that wrap, rings over arrays |
| Blocks, BufPool | pools as values and as code, ownership |
| WriteSpec, AppendLoop, PrependLoop, WriteBuf, WriteStream | append, prepend, submit, gather, consume |
| TcpWorker, TcpView, TcpDrain, TcpReuse, TcpRuns, TcpChannel | the TCP write side of a worker thread; what its parties see of it, when it drains, what a connection inherits, runs written out |
| UdpWorker, UdpView, MsghdrPool, WriteDgram, UdpChannel | the UDP write side of a worker thread; what its parties see of it |
| ReadSpec, BufRing, ReadBuf, Receiver | the TCP read side of a worker thread |
| Echo, EchoView, EchoRuns | read side and write side together under the documented echo handler; what its client sees |
| MpscQueue, MpscCalls | the bounded queue; its calls from beginning to end |
| Logger, LoggerCalls, LoggerExit, LoggerFiles, LoggerRuns | the logger's hand-off of buffers; calls of `append`, what an exiting thread leaves in the files, where and when the files are filled, runs written out |

## What was found

Eight promises do not hold on all inputs. Each is stated with the exact condition under which it does, and with an input
on which it does not.

- `prepend` computes `size + buf_size - 1` in 32 bits. It stores what it reports if and only if size plus block size is
  at most 2^32; beyond that it reports success and stores nothing (`PrependCorrectIff`, `PrependLost`).
- `ReadBufStream::peek` compares 32-bit positions with `<`. Its fragments are right if and only if nothing is asked for or
  the tail has not wrapped past the head; otherwise it reports success with no fragments (`ReadBufStream.Peek`,
  `PeekAfterWrap`). Under the echo handler such a channel reads nothing until its read side is reset (`StaysBlind`).
- `MPSCQueue` accepts capacity 1 but then overwrites unread items; for positive powers of two it is bounded if and only if
  the capacity is at least 2 (`CapacityOneOverwrites`, `BoundedIffTwo`). Its assertion also admits capacity 0, a queue
  without a slot, which is not part of this model.
- An append leaves an empty block if and only if it appends nothing to an empty pending list and gets a block
  (`AppendUsed`, `NextUsed`). Once only such blocks are left to send, a `writev` of zero bytes ends the connection, whether
  the empty block was submitted alone or behind bytes since acknowledged (`EmptyAppendEndsConnection`,
  `EmptyTailEndsConnection`).
- `assign` clears neither the send ring nor the pending list. A new connection is clean if and only if both were empty,
  that is, if and only if no append or prepend succeeded on the channel since the previous connection ended
  (`ConnectionInherits`, `NextConnectionCleanIff`; `DraftInherited` and `BytesInherited` are runs).
- The echo handler returns a connection's own bytes if and only if its write side started empty. Bytes delivered after a
  failed write ended a channel's write loop are echoed to the next client (`OpenConnection`, `StaleEcho`).
- The log files hold every line the backend has finished with, and so a prefix of what a thread was promised, if and only
  if none of the thread's buffers was taken from the queue while no file was open (`LoggerHandOff.EveryRun`); after such
  a buffer a later file can hold lines without the ones before them (`FileSkipsLine`).
- A thread that exits leaves all its accepted lines in the files if and only if its front buffer is empty at the exit, or
  its back buffer is not in flight when the guard looks and the queue takes the front one; and no lines of its were or are
  dropped for want of a file (`ExitKeepsAllIff`; `ExitLosesLine` and `ExitDropsLine` are runs).

## Model

| member | source | states |
|---|---|---|
| `Bits.PowerOfTwoTest` | src/buffer/buf_pool.cpp:11 | the capacity assertion accepts exactly the powers of two |
| `Bits.MaskIsMod` | src/buffer/buf_pool.cpp:27 | masking a counter with capacity minus one is the remainder modulo the capacity |
| `Bits.WrapKeepsSlot` | src/buffer/buf_pool.cpp:23-34 | a counter that wraps at word size still addresses the same slot |
| `Ring.PushBack` | src/buffer/buf_pool.cpp:32 | storing at the tail and advancing it appends to the queue, also across the counter's wrap-around |
| `Ring.PopFront` | src/buffer/buf_pool.cpp:27 | reading at the head and advancing it removes the first element, also across the wrap-around |
| `Ring.PushFrontAll` | src/buffer/buffer.cpp:173-191 | filling slots in front of the head and moving the head back puts them in front of the queue, even when the counter goes below zero |
| `BufferPool.BufPool.constructor` | src/buffer/buf_pool.cpp:3-16 | a new pool holds every block once, in order, all empty |
| `BufferPool.BufPool.Acquire` | src/buffer/buf_pool.cpp:23-28 | the first free block, removed from the queue, or the invalid index exactly when none is free |
| `BufferPool.BufPool.Release` | src/buffer/buf_pool.cpp:29-34 | a held block goes to the back of the free queue, emptied; the overflow assertion cannot fire |
| `BufferPool.BufPool.AddressRoundTrip` | include/buffer/buf_pool.hpp:13-14 | an address anywhere inside a block maps back to the block's index |
| `BufferPool.BufPool.CopyTo` | src/buffer/buffer.cpp:140-141 | bytes copied past a block's visible end change no block's visible bytes |
| `BufferPool.BufPool.SetDataSize` | include/buffer/buf_pool.hpp:16 | a new size makes exactly the block's first bytes visible and changes no other block |
| `WriteSpec.NeedIsLeast` | src/buffer/buffer.cpp:129-164 | the number of blocks an append takes is the least that leaves room for all its bytes |
| `WriteSpec.AppendFitsIff` | src/buffer/buffer.cpp:114-166 | append succeeds exactly when its bytes fit the slack of the last block plus the blocks that capacity and pool still allow, at least one for an empty list |
| `WriteSpec.AppendContents` | src/buffer/buffer.cpp:114-166 | a successful append adds exactly its bytes at the end of the pending bytes; a failed one adds none |
| `WriteSpec.AppendOwnership` | src/buffer/buffer.cpp:114-166 | append keeps every block in one place and writes to no block but its own and free ones; a failed append leaves the list and all bytes as they were |
| `WriteSpec.PrependFitsIff` | src/buffer/buffer.cpp:167-192 | while the size fits 32 bits, prepend succeeds exactly when its bytes fit the blocks that capacity and pool still allow |
| `WriteSpec.PrependContents` | src/buffer/buffer.cpp:167-192 | while the size fits 32 bits, a successful prepend puts exactly its bytes in front of the pending bytes, a failed one changes none |
| `WriteSpec.PrependCorrectIff` | src/buffer/buffer.cpp:169 | a prepend that reports success stored its bytes if and only if size plus block size is at most two to the 32 |
| `WriteSpec.PrependLost` | src/buffer/buffer.cpp:169 | beyond that bound prepend reports success and stores nothing |
| `WriteSpec.PrependOwnership` | src/buffer/buffer.cpp:167-192 | prepend keeps every block in one place, touches no held block, and changes nothing when it fails |
| `WriteSpec.ConsumeBytes` | src/buffer/buffer.cpp:233-250 | consuming n bytes leaves exactly the unsent bytes from n on |
| `WriteSpec.ConsumeAdditive` | src/buffer/buffer.cpp:233-250 | consuming m and then n is consuming m plus n: same ring, same pool, same order of released blocks |
| `WriteSpec.ConsumeReleases` | src/buffer/buffer.cpp:233-250 | consuming releases exactly the blocks it removes from the front, once each, in order |
| `WriteSpec.ConsumeAllDrains` | src/buffer/buffer.cpp:233-250 | consuming everything empties the ring if and only if its last block is not empty |
| `WriteSpec.AnyShortWrites` | src/net/handler.cpp:51-69 | any split of the bytes into short writes ends in the same state as one full write |
| `WriteSpec.PeekIsUnsent` | src/buffer/buffer.cpp:214-232 | the gathered iovecs read exactly the unsent bytes |
| `WriteBuffer.WriteBufBase.Append` | src/buffer/buffer.cpp:114-166 | the loop with both rollback paths computes `AppendSpec`: outcome, pool and pending list |
| `WriteBuffer.WriteBufBase.Rollback` | src/buffer/buffer.cpp:149-151 | undoing an append cuts the last old block back to its size and releases the new blocks from the back |
| `WriteBuffer.WriteBufBase.Prepend` | src/buffer/buffer.cpp:167-192 | the loop with its rollback computes `PrependSpec`, including the 32-bit block count |
| `WriteBuffer.WriteBufBase.DiscardPending` | src/buffer/buffer.cpp:108-113 | every pending block goes back to the pool, in order |
| `WriteStream.RawReads` | src/buffer/buffer.cpp:214-232 | reading memory through addresses and lengths is reading the blocks |
| `WriteStream.WriteBufStream.Submit` | src/buffer/buffer.cpp:202-213 | all pending blocks join the send ring, or none do; success exactly when something is pending and all of it fits |
| `WriteStream.WriteBufStream.PeekIovec` | src/buffer/buffer.cpp:214-232 | the array handed to the kernel covers exactly the unsent bytes and the byte count is theirs |
| `WriteStream.WriteBufStream.ConsumeWritten` | src/buffer/buffer.cpp:233-250 | the loop computes `Consume` |
| `WriteStream.WriteBufStream.Reset` | include/buffer/buffer.hpp:104-112 | every submitted and pending block goes back to the pool, in order, and the channel is empty |
| `TcpWorker.StepKept` | src/net/handler.cpp:42-73 | every event on a channel keeps its byte stream, its loop invariant and its blocks' ownership, and leaves all other channels' bytes alone |
| `TcpWorker.NextInv` | src/net/handler.cpp:42-73 | every event keeps the invariant of a worker with any number of channels |
| `TcpWorker.EveryRun` | src/net/handler.cpp:42-73 | in every run acknowledged bytes followed by the send ring are the drafts submitted, in order; each block is in exactly one place and free blocks are empty; a parked loop has nothing to send and no pending note |
| `TcpWorker.WriteIsStable` | src/net/handler.cpp:53-69 | in every run between a `writev` and its completion the blocks and stretches it covers, their bytes and their place at the front of the send ring stay the same; the array itself is `TcpChannel.KernelReads` |
| `TcpWorker.InFlightBytes` | src/net/handler.cpp:50-57 | the bytes an outstanding `writev` covers are those submitted right after the acknowledged ones |
| `TcpView.Acknowledged` | src/net/handler.cpp:58-71 | a completion with a positive result acknowledges exactly that many of the bytes submitted after those acknowledged before, and the loop goes on to `on_write` |
| `TcpView.StepTalks` | src/net/handler.cpp:42-73 | every event changes draft, submitted bytes and the count of acknowledged ones as it should: an append or prepend adds its bytes exactly when they fit, a submit the draft exactly when it fits the ring, a completion its result; no event touches another channel's |
| `TcpView.ConnectionTalks` | src/net/handler.cpp:42-73 | in every run on a connection that stays open, draft and submitted bytes are what the successful calls make them, and the bytes acknowledged are as many of the first of them as the kernel's results add up to |
| `TcpView.StepMoves` | src/net/handler.cpp:42-73 | where every event takes the write loop: when it ends, when it waits, when it starts a `writev`, and that a `writev` covers every byte not yet acknowledged |
| `TcpView.CloseWakes` | src/net/channel.cpp:16-31 | a close ends a waiting loop at once if nothing is in flight, and otherwise the next drain with nothing in flight does |
| `TcpView.CloseIsNoticed` | src/net/channel.cpp:25-31 | in every run, a loop that is writing or in the callback when it is closed ends at its next turn with nothing in flight |
| `TcpDrain.AppendUsed` | src/buffer/buffer.cpp:114-166 | on a list without empty blocks, append leaves an empty block if and only if it appends nothing to an empty list and succeeds |
| `TcpDrain.PrependUsed` | src/buffer/buffer.cpp:167-192 | a prepend never leaves an empty block |
| `TcpDrain.NextUsed` | src/net/handler.cpp:42-73 | a step of the worker keeps all channels free of empty blocks if and only if it is not such an append |
| `TcpDrain.AcknowledgedMeansDrained` | src/net/handler.cpp:42-73 | in every run without such an append, a channel whose every submitted byte is acknowledged has an empty send ring |
| `TcpDrain.WritesCoverBytes` | src/net/handler.cpp:50-57 | in every run without such an append each outstanding `writev` covers at least one byte |
| `TcpDrain.WriteCoversNothingIff` | src/net/handler.cpp:50-57 | a `writev`, when the loop starts it, covers no bytes if and only if no byte is unsent |
| `TcpDrain.EmptyAppendQueuesBlock` | src/buffer/buffer.cpp:119-125 | appending nothing to an empty list takes a block and queues it empty |
| `TcpDrain.EmptyWriteEndsConnection` | src/net/handler.cpp:60-65 | a `writev` that covers no bytes can only complete with zero or an error, and that ends the loop |
| `TcpRuns.EmptyAppendEndsConnection` | src/net/handler.cpp:42-73 | from every state with a vacant channel and a free block, the initial one included: assign, append nothing, submit reaches a `writev` of zero bytes, and its completion ends the connection |
| `TcpRuns.EmptyTailEndsConnection` | src/net/handler.cpp:42-73 | the same with the empty block behind bytes that are acknowledged in full |
| `TcpReuse.ConnectionInherits` | src/net/channel.cpp:35-52 | assign keeps the send ring and the pending list; the new connection is clean if and only if both were empty |
| `TcpReuse.NextConnectionCleanIff` | src/net/channel.cpp:35-52 | from the end of a connection to the next assign, in any run: the next one is clean if and only if no append or non-empty prepend on the channel succeeded in between |
| `TcpReuse.DraftInherited` | src/net/channel.cpp:35-52 | a run in which bytes appended after the end are the draft of the next connection |
| `TcpReuse.BytesInherited` | src/net/channel.cpp:35-52 | a run in which bytes submitted after the end are what the next connection sends first |
| `TcpChannels.NotifyToken.AwaitReady` | src/core/awaiter.cpp:13-17 | a pending note is consumed and reported |
| `TcpChannels.NotifyToken.Notify` | src/core/awaiter.cpp:19-25 | one call wakes the waiter or leaves a note, never both, never neither |
| `TcpChannels.NotifyToken.NotifyClose` | src/core/awaiter.cpp:34-41 | the same, and the token is closed |
| `TcpChannels.TcpChannel.RunLoop` | src/net/handler.cpp:42-59 | the loop runs to the suspension point of the worker's transition system, and a `writev` it starts gets the addresses and lengths of what it covers |
| `TcpChannels.TcpChannel.Submit` | include/net/channel.hpp:49-55 | computes the worker's submit step: ring, token and loop position; the array of an outstanding `writev` is unchanged |
| `TcpChannels.TcpChannel.OnWritten` | src/net/handler.cpp:58-72 | computes the worker's completion step for every result, positive, zero or negative |
| `TcpChannels.TcpChannel.Continue` | src/net/handler.cpp:45-59 | computes the step from the return of `on_write` to the next suspension |
| `TcpChannels.TcpChannel.Close` | src/net/channel.cpp:25-31 | computes the worker's close step; the array of an outstanding `writev` is unchanged |
| `TcpChannels.TcpChannel.OnDrained` | src/net/channel.cpp:16-23 | computes the worker's drained step; the array of an outstanding `writev` is unchanged |
| `TcpChannels.TcpChannel.Assign` | src/net/channel.cpp:35-52 | computes the worker's assign step: new token, write buffer as it was |
| `TcpChannels.TcpChannel.Undisturbed` | src/net/handler.cpp:42-73 | any step of another channel on the same pool leaves this channel's object valid, its blocks, bytes and outstanding `writev` as they were, and its blocks its own |
| `TcpChannels.TcpChannel.KernelReads` | src/net/handler.cpp:50-57 | at any time while a `writev` is outstanding, what memory holds behind its array is the stretch submitted after the acknowledged bytes |
| `UdpWorker.StepInv` | src/net/handler.cpp:102-119 | every event keeps the worker's invariant and disturbs no datagram in flight except the one it completes |
| `UdpWorker.EveryRun` | src/net/handler.cpp:102-119 | in every run, with completions in any order, each block and each slot is in exactly one place, free slots are zeroed, every outstanding slot carries the whole datagram pending at its submit, and submitted is completed plus outstanding |
| `UdpWorker.SubmitIsTransactional` | include/net/channel.hpp:98-123 | submit succeeds exactly when something is pending, it fits the iovecs and a slot is free; then one datagram with all pending bytes is handed over; otherwise nothing is, and both pools have back what they had |
| `UdpWorker.NothingHeld` | src/buffer/buffer.cpp:291-296 | with nothing pending and nothing in flight both pools are full |
| `UdpWorker.FlightIsStable` | src/net/handler.cpp:108-117 | from `sendmsg` to completion a slot's destination, iovecs and bytes do not change in any run |
| `UdpWorker.WholeDatagram` | src/buffer/buffer.cpp:261-284 | the iovecs of a slot concatenate to all pending bytes |
| `UdpView.StepPosts` | src/net/handler.cpp:102-119 | every event changes draft, submitted, outstanding and completed datagrams as it should: a failed submit discards the draft, a completion moves exactly its datagram from outstanding to completed |
| `UdpView.RunPosts` | src/net/handler.cpp:102-119 | in every run these four are what the events of the run make them |
| `MessageSlots.MsghdrPool.constructor` | src/buffer/msghdr_pool.cpp:3-24 | every slot free, once, in order and zeroed |
| `MessageSlots.MsghdrPool.Acquire` | src/buffer/msghdr_pool.cpp:31-36 | the first free slot, zeroed, or null exactly when none is free |
| `MessageSlots.MsghdrPool.Release` | src/buffer/msghdr_pool.cpp:37-46 | the slot is zeroed, all its iovec entries included, and joins the free queue; the overflow assertion cannot fire; no other slot changes |
| `WriteDgram.WriteBufDgram.Submit` | src/buffer/buffer.cpp:261-284 | exactly when a slot is given, something is pending, it fits the iovecs and the queue has room, the slot gets all pending blocks in order and is queued; otherwise neither the list, the queue nor any header changes |
| `WriteDgram.WriteBufDgram.PeekSlot` | src/buffer/buffer.cpp:285-290 | the queued slot at an offset, and nothing outside the queue |
| `WriteDgram.WriteBufDgram.ReleaseSlot` | src/buffer/buffer.cpp:291-296 | buffers recovered from raw addresses are exactly the slot's blocks; they are released in order, then the slot |
| `WriteDgram.WriteBufDgram.ClearSlotQueue` | src/buffer/buffer.cpp:297-300 | the queue is empty and nothing else changes |
| `UdpChannels.UdpChannel.SendAll` | src/net/handler.cpp:108-117 | one request per queued slot, in order, and the queue is empty |
| `UdpChannels.UdpChannel.RunLoop` | src/net/handler.cpp:102-119 | the loop runs to the suspension point of the worker's transition system |
| `UdpChannels.UdpChannel.Submit` | include/net/channel.hpp:98-123 | computes the worker's submit step, both overloads |
| `UdpChannels.UdpChannel.OnComplete` | src/core/awaiter.cpp:27-32 | computes the worker's completion step |
| `UdpChannels.UdpChannel.KernelReads` | src/net/handler.cpp:110-115 | what memory holds behind an outstanding header is the datagram submitted, byte for byte |
| `ReadSpec.PeekIsPrefix` | src/buffer/buffer.cpp:30-49 | the fragments of a peek concatenate to the first unread bytes asked for |
| `ReadSpec.ConsumeFilled` | src/buffer/buffer.cpp:50-69 | consuming keeps every queued block non-empty |
| `ReadSpec.DeliverBytes` | src/net/handler.cpp:34-37 | a delivered block adds exactly its bytes at the end of the unread bytes |
| `ReceiveRing.BufRing.Release` | src/core/buf_ring.cpp:37-42 | a held block is lent to the kernel again, emptied |
| `ReceiveRing.BufRing.KernelFills` | src/net/handler.cpp:34-35 | the kernel takes a lent block and fills it; every other block stays as it is |
| `ReadBuffer.ReadBufStream.PushBuf` | src/buffer/buffer.cpp:19-26 | a block the kernel gave up always fits the queue, and its bytes become readable |
| `ReadBuffer.ReadBufStream.Peek` | src/buffer/buffer.cpp:30-49 | null exactly when more is asked than is there; otherwise the fragments read the first bytes if and only if nothing is asked or the counters have not wrapped between head and tail, and there are none in the other case |
| `ReadBuffer.PeekAfterWrap` | src/buffer/buffer.cpp:35 | a new reader that passes on one block less than two to the 32 and then receives a byte has the byte readable, and a peek for it succeeds with no fragment |
| `ReadBuffer.ReadBufStream.Consume` | src/buffer/buffer.cpp:50-69 | refused, without change, exactly when more is asked than is there; otherwise the loop computes `Consume` |
| `ReadBuffer.ReadBufStream.Reset` | include/buffer/buffer.hpp:50-55 | every queued block goes back to the kernel and the queue is empty |
| `ReadBuffer.FragmentsRead` | src/buffer/buffer.cpp:39-43 | following the fragment addresses through memory reads the blocks |
| `Receiver.NextInv` | src/net/handler.cpp:5-40 | every delivery, consume and reset keeps the invariant of a receiver with any number of channels |
| `Receiver.EveryRun` | src/net/handler.cpp:5-40 | in every run each block is lent to the kernel or in exactly one read queue, consumed followed by unread bytes are the received bytes, and no delivery is ever refused |
| `Receiver.StepTallies` | src/net/handler.cpp:5-40 | a delivery adds its bytes to those received, a consume counts its bytes exactly when they are there, a reset forgets both; no event touches another channel's |
| `Receiver.ReaderTallies` | src/net/handler.cpp:5-40 | in every run the bytes received are those delivered since the last reset, in order, and those consumed are as many of the first of them as the calls asked for |
| `EchoView.AcceptsUpToRefusal` | README.md:107-114 | the handler appends fragment after fragment up to the first that is refused, if any, and accepts exactly the bytes of those before it |
| `EchoView.HandlerConsumes` | README.md:101-121 | a call of the handler consumes exactly what it accepted; if no append is refused and the read counters have not wrapped, nothing is left unread |
| `EchoView.HandlerSubmits` | README.md:115-120 | the call then submits its draft with the accepted bytes at the end, unless that does not fit the send ring |
| `EchoView.WhatComesBack` | README.md:101-121 | end to end, in every run while neither loop ends: the bytes acknowledged are the first of what the write side held, followed by what arrived and was not consumed at the start, as many as the kernel's results add up to |
| `EchoView.WriteLoopMoves` | src/net/handler.cpp:42-73 | under the echo handler every event takes the write loop where it should |
| `EchoView.ReadEndsClears` | src/net/handler.cpp:38-39 | the end of the read loop leaves the reader empty and its counters at zero |
| `EchoView.CountersCountBlocks` | src/buffer/buffer.cpp:19-69 | in every run until the read side is reset, head and queue together count the blocks that came, which decides when the counters have wrapped |
| `Echo.AppendAllEffect` | README.md:107-114 | the accepted bytes are a prefix of the peeked ones and exactly they join the draft, wherever an append is refused |
| `Echo.StepEchoes` | README.md:101-121 | every step that ends neither loop of a channel passes on exactly the bytes it consumes |
| `Echo.OpenConnection` | README.md:101-121 | from any state, while neither loop of a channel ends: what its write side held, followed by what was received since, is acknowledged, in the send ring, pending and unread, in this order; for a reader that starts empty this is what was received if and only if the write side was empty |
| `Echo.EveryRun` | README.md:101-121 | the same for every connection of every run, whether the first on its channel or a later one |
| `Echo.StaysBlind` | src/buffer/buffer.cpp:35 | once the read counters of a channel have wrapped, no later call of the handler consumes anything until the read side is reset |
| `EchoRuns.StaleEcho` | src/net/handler.cpp:60-65 | a run of the echo handler: a write fails, bytes delivered before the read loop ends are echoed all the same, and the next connection, which has received nothing, is sending them |
| `MpscQueue.DiffExact` | include/util/mpsc_queue.hpp:49-50 | the signed difference of two 64-bit positions is their true difference while they are less than half the range apart |
| `MpscQueue.CasKept` | include/util/mpsc_queue.hpp:50-54 | a successful compare-and-swap implies that the sequence number read before is still current |
| `MpscQueue.NextInv` | include/util/mpsc_queue.hpp:41-79 | every atomic step of every producer and of the consumer keeps the invariant |
| `MpscQueue.EveryRun` | include/util/mpsc_queue.hpp:41-79 | in every interleaving of any number of producers the items dequeued are those of the first tickets in claim order, each once; the tickets between head and tail own distinct slots; no two parties use one slot's data at a time; at most capacity items are held |
| `MpscQueue.QueueIsFifo` | include/util/mpsc_queue.hpp:41-79 | an item joins the end of the queue at the step that claims its ticket, the first leaves at the step that frees its slot and is the item returned, and no other step changes the queue |
| `MpscQueue.HistoryGrows` | include/util/mpsc_queue.hpp:41-79 | tickets once claimed and items once taken never change |
| `MpscQueue.EnqueueFailsIffFull` | include/util/mpsc_queue.hpp:47-58 | at the step that reads the sequence, enqueue gives up if and only if its position is current and the queue is full at that instant; a stale position makes it retry |
| `MpscQueue.DequeueFailsIffUnpublished` | include/util/mpsc_queue.hpp:66-79 | dequeue gives up if and only if the head ticket is not published at that instant |
| `MpscCalls.NoneForgotten` | include/util/mpsc_queue.hpp:41-79 | in every run each ticket between head and tail is published or its producer is still inside `enqueue`; when none is, `dequeue` finds an item if and only if there is one |
| `MpscCalls.CallOutcome` | include/util/mpsc_queue.hpp:41-63 | every call of `enqueue` in every run returns true if and only if it claimed a ticket, then exactly one, with its own item, and published; it returns false only upon finding every slot occupied |
| `MpscCalls.EnqueueAlone` | include/util/mpsc_queue.hpp:41-63 | undisturbed, `enqueue` adds its item at the end, published, or returns false and changes nothing exactly when the queue is full |
| `MpscCalls.DequeueAlone` | include/util/mpsc_queue.hpp:64-79 | `dequeue` takes the first item if its ticket is published and otherwise returns false and changes nothing |
| `MpscCalls.QuietQueueDrains` | include/util/mpsc_queue.hpp:64-79 | once no producer is at work, as many calls of `dequeue` as there are items return them all, in order, and the next returns false |
| `MpscQueue.CapacityOneOverwrites` | include/util/mpsc_queue.hpp:60-61 | with capacity 1 a second enqueue succeeds and overwrites the first item |
| `MpscQueue.BoundedIffTwo` | include/util/mpsc_queue.hpp:41-63 | for positive powers of two, no run holds more than capacity items if and only if the capacity is at least 2 |
| `LoggerHandOff.ThreadStepOk` | src/util/log.cpp:48-87 | no step of `append` or of the exit guard touches a buffer that is queued, being written or being cleared, and every step keeps the thread's account of lines |
| `LoggerHandOff.StoreOk` | src/util/log.cpp:86-92 | a stored line ends within the buffer and joins the accepted lines |
| `LoggerHandOff.GivenAway` | src/util/log.cpp:133-155 | whatever the backend does with a buffer it was given keeps the thread's invariant and account, and the thread's other buffer was not given away |
| `LoggerHandOff.NextInv` | src/util/log.cpp:131-215 | every step of every thread and of the backend keeps the invariant |
| `LoggerHandOff.RegionsApart` | src/util/log.cpp:141-145 | regions of one file do not overlap and lie in the order in which they were allotted |
| `LoggerHandOff.EveryRun` | src/util/log.cpp:48-243 | in every interleaving: no append to a buffer in flight or past its end, at most one buffer of a thread in flight, a back buffer not in flight is empty, a deleted thread state is nowhere in use, a thread's lines that the backend finished with are a prefix of its accepted lines, whole and in order, and the rest are in its two buffers; the files hold exactly these finished lines if and only if no buffer with lines of the thread was dequeued while no file was open; regions are contiguous and exactly filled |
| `LoggerHandOff.SwitchIsQuiet` | src/util/log.cpp:169-186 | the file is changed only when no write is outstanding |
| `LoggerHandOff.HandedOverIsStable` | src/util/log.cpp:67-79 | in every run from hand-over to completion a buffer stays flagged and the lines in it do not change |
| `LoggerHandOff.StepIsStable` | src/util/log.cpp:131-155 | every step leaves a handed-over buffer as it was or clears it: after a completed write its lines are now the last of their thread in the files; dequeued while no file was open, they are in no file |
| `LoggerHandOff.StoredIff` | src/util/log.cpp:133-147 | the files hold all lines of a thread that the backend finished with if and only if none of its non-empty buffers was discarded |
| `LoggerCalls.AppendOutcome` | src/util/log.cpp:48-87 | every run from a call of `append` to its return: the front buffer is handed over if and only if the line does not fit or a second has passed with lines in it, the back buffer is not in flight at the look and the queue takes the front one; the line is then the first of the other buffer; otherwise it joins the front buffer if and only if it fits, and is refused if not |
| `LoggerCalls.CallReturns` | src/util/log.cpp:48-87 | from anywhere inside `append` at most five steps of the thread alone make it return |
| `LoggerCalls.ExitWaits` | src/util/log.cpp:216-239 | from anywhere inside the exit guard the thread alone gets to where it waits for its buffers |
| `LoggerFiles.FileBeginsAtItsEnd` | src/util/log.cpp:111-129 | in every run from the opening of a file with some size, the first buffer written to it starts at that size and each later one where the one before ends; if it could not be opened no buffer is written |
| `LoggerFiles.FirstHandedFirstPlaced` | src/util/log.cpp:186-189 | in every run buffers get their place in the log in the order in which the queue took them, each once |
| `LoggerFiles.BackendFinishes` | src/util/log.cpp:131-215 | from every reachable state the backend alone empties queue and outstanding writes, opens the file of a new date, returns every buffer, finishes with every line handed over, in the files if one is open, and lets every waiting thread go |
| `LoggerFiles.NewDayNewFile` | src/util/log.cpp:164-182 | a new date noticed at any time takes the backend to the next file |
| `LoggerExit.ExitKeepsAllIff` | src/util/log.cpp:216-243 | in every run from a thread's entry into its exit guard to the deletion of its state: all lines it was ever promised are in the files if and only if its front buffer was empty at the exit or the guard found the back buffer free and the queue took the front one, and no lines of the thread were discarded before or in the run |
| `LoggerRuns.ExitLosesLine` | src/util/log.cpp:216-243 | a run in which a thread exits with its back buffer in flight and a line it accepted is deleted |
| `LoggerRuns.ExitDropsLine` | src/util/log.cpp:133-140 | a run in which the file cannot be opened, the exit guard hands the buffer over, the thread ends with empty buffers and its line is in no file |
| `LoggerRuns.FileSkipsLine` | src/util/log.cpp:131-186 | a run in which the first line is discarded and the next day's file holds the second, so that the files hold no prefix of what was accepted |

## Left out

- Connection lifetime: `TcpChannelPool`, the acceptor, and when a channel goes back to its pool. `has_in_flight()` is an
  arbitrary answer chosen with each event, so the theorems hold whatever the in-flight counter says.
- `IoRing`, `Sqe`, `Cqe` and the kernel: requests and completions are events; a `writev` may acknowledge any number of
  bytes up to what it was given, an error or zero.
- Coroutine frames and resumption: the write loops are modelled between their suspension points.
- Memory orders: atomic accesses of the queue and of the logger are interleaved, sequentially consistent steps.
- MpscQueue.EveryRun: a producer may be overtaken by fewer than two to the 62 tickets between its load and its
  compare-and-swap, because beyond that 64-bit positions repeat.
- TcpWorker.EveryRun: prepends are within the bound of `PrependCorrectIff`; beyond it the draft would not match.
- UdpWorker.EveryRun: the same bound on prepends.
- LoggerHandOff.EveryRun: writes complete in full, as the backend assumes when it ignores the result of a completion.
- The logger's semaphore, its destructor and the formatting of lines; lines have at most 319 bytes, the cut made by
  `log`. The flush queue is the FIFO of `QueueIsFifo`, with `enqueue` allowed to fail and `dequeue` to come up empty at
  any time.
- `ReadBufDgram`, `DgramMsg` parsing and the UDP read loop: they would add only one-block versions of the read path.
- `TimestampCache`, IP addresses, sockets, NUMA placement, server configuration and the benchmarks.
- Inheritance: `WriteBufStream` and `WriteBufDgram` hold a `WriteBufBase` instead of extending it; the `send_queue_` that
  the datagram variant inherits and never uses is not part of this model.
- Addresses: a block is named by its index and an iovec by an offset into the pool's allocation; message slots are named by
  their index.
