# Verified models of the io_uring rings and the programs built on them

This project models the ring machinery of liburing and the completion-driven
programs of this repository that sit on it, and proves what they rely on. The
kernel is an explicit second party: its steps are written out beside the
program's, and its choices (amounts, orders, errors, when it runs) are free
within the contract below.

* `Arith`, `Bytes`, `RingIndex`, `Options` hold modular arithmetic, byte
  streams, rings addressed by wrapping counters, and a value that may be missing.
* `ProxyModel`, `ProxyConn`, `ProxyMachine`, `ProxyInvariant`, `ProxySteps`,
  `ProxyTheorems`, `ProxyHandlers` are the one-directional proxy with a send
  ring: the specification of its handlers, the handlers on their arrays, the
  machine they form with the kernel, its invariant, its steps, what follows for
  every run, and what one handled completion does in every reachable state.
  `ProxyVectors` is its sending side without a send ring.
* `FileCopy`, `FileCopyRun` are the asynchronous file copy.
* `SubmissionQueue`, `SubmissionRing`, `CompletionQueue`, `CompletionRing` are
  the two rings: counters against sequences, and the operations on shared arrays.
* `RingSetup` is ring sizing.
* `UdpEcho`, `UdpEchoRun` are the UDP echo server.
* `BufferPool`, `PipelinedClient`, `ClientTokens` are the allocator and the two
  benchmark clients.

The handler methods of `ProxyConn.Conn` and `UdpEcho.Server` not listed in the
table below are proved to have exactly the effect of the specification functions
of the same names; the results about every run are about those functions.

Check everything with `dafny verify dfyconfig.toml`.

## What is assumed of the kernel

* It consumes submission entries in order from its head and never passes the
  tail; it posts completions only when there is room.
* It takes provided buffers in ring order and leaves the length of a buffer in
  the receive ring alone. A receive of n bytes fills consecutive buffers, all
  but the last to their end.
* A ring send reports the summed lengths of a non-empty prefix of the queued
  buffers. After the end of a stream only the end is delivered again.
* `io_uring_enter` never returns more than it was asked to submit; asked only to
  wait, it succeeds only once enough completions are ready.
* What else may go wrong (a failed allocation, submit, wait or operation, a
  completion that moves nothing) is an input of the copy and of the two clients;
  nothing else goes wrong, and every result is for all such inputs.
* Handlers are atomic steps, memory is sequentially consistent, and the kernel
  may run between any two of them.

## Where the code and its comments differ

* The comment on `recv_enobufs` in the proxy says that re-arming waits until half
  of the buffers are back. In one direction it re-arms at once, because
  `cd[0].out_buffers` is never raised: `ProxyHandlers.ReceiveIsHandled`.
* `check_out` returns the index as 16 bits. Beyond 65536 buffers of a size the
  index names another buffer (`BufferPool.TruncationFreesAnother`);
  `BufferPool.BooksStraightIffReachable` says exactly which runs are not affected.
* The final loop of `copy_file` does not look at how much a write moved
  (`FileCopyRun.ShortDrainLosesData`), and a refused submit of reads leaves the
  main loop as if the copy were done (`FileCopyRun.RefusedReadsLoseData`).
  `FileCopyRun.CopyFile` says exactly when the result is complete.
* In full-duplex mode the token client raises `inflight` for every reply it
  answers and never lowers it for them, so its time limit can end the loop only
  if no reply came before it. With a limit later than one completion an
  operation, and no fault, it waits for ever: `ClientTokens.Client.Run`.
* `send_receive_data` lets sends run a quarter of the ring ahead, so a ring of
  fewer than four entries never sends: `PipelinedClient.Client.SendReceiveData`.

## Model

| member | source | states |
|---|---|---|
| `ProxyTheorems.StreamRefines` | fast_net/libs/liburing/examples/proxy.c:1189-1222 | in every reachable state the received bytes are the sent ones, then the outgoing ring from the kernel's head, then the completions not handled yet; so what was sent is an unmodified in-order prefix of what was received |
| `ProxyTheorems.BuffersConserved` | fast_net/libs/liburing/examples/proxy.c:1549-1588 | every buffer id is in exactly one of: receive ring, received but not handled, outgoing; and 0 <= out_buffers <= nr_bufs |
| `ProxyTheorems.SlotIndexIsBufferId` | fast_net/libs/liburing/examples/proxy.c:1200 | the unstated fact behind `bufs[bid]`: slot j of the receive ring always describes buffer j, and a queued buffer b sits in slot b of the outgoing ring, through every 16-bit tail wrap |
| `ProxyTheorems.HandlersNeverFail` | fast_net/libs/liburing/examples/proxy.c:1315-1342 | in every reachable state the next completion of either kind is handled without error, without an assertion firing and without a bid mismatch |
| `ProxyTheorems.SendNeverStarves` | fast_net/libs/liburing/examples/proxy.c:1466-1473 | a submitted ring send always finds at least one buffer in the outgoing ring and never completes with -ENOBUFS |
| `ProxyTheorems.NeverStalls` | fast_net/libs/liburing/examples/proxy.c:1352-1368 | in every reachable state buffers wait without a send only below half the ring and while a receive is pending; a receive or a send is pending, or the stream ended and nothing is queued; a pending send can always advance; one is pending whenever the receive ring is used up and all completions are handled; and some step is possible unless the connection should shut down |
| `ProxyTheorems.DataWaitsBelowHalf` | fast_net/libs/liburing/examples/proxy.c:1352-1368 | in every reachable state, handling received data leaves a send pending exactly if one was pending, the receive request ended, or the queued buffers reach half the ring; otherwise the bytes stay until the peer sends more |
| `ProxyHandlers.ReceiveIsHandled` | fast_net/libs/liburing/examples/proxy.c:1280-1394 | in every reachable state, what handling the next receive completion does: the receive is pending afterwards exactly if the request goes on, or it failed for want of buffers, or it ended with data while no send was pending; a send exactly if one was, or the stream ended with buffers queued, or data came and the request ended or half the ring is queued; one request is issued for each that is pending anew, a send naming the buffer at the kernel's head; and every counter and flag |
| `ProxyHandlers.SendIsHandled` | fast_net/libs/liburing/examples/proxy.c:1549-1711 | in every reachable state, what handling the next send completion does: a send is pending afterwards exactly if the request goes on or buffers are queued, the receive exactly if it was or the request ended with nothing queued; the requests issued, the counters and the close as above |
| `ProxyHandlers.RejectedReceive` | fast_net/libs/liburing/examples/proxy.c:1293-1323 | for any state: exactly which receive completions fail the handler, that one from an unexpected buffer starts the close, that one without a buffer left issues one request, and that none touches a ring or a byte counter |
| `ProxyHandlers.RejectedSend` | fast_net/libs/liburing/examples/proxy.c:1629-1672 | for any state: exactly which send completions fail the handler, and that these and those from an unexpected buffer touch no ring or counter and issue no request |
| `ProxyTheorems.FullRingIsSending` | fast_net/libs/liburing/examples/proxy.c:1366-1368 | when the kernel has no buffer left and every completion is handled, a send is pending |
| `ProxyTheorems.ShutdownMeansDrained` | fast_net/libs/liburing/examples/proxy.c:844-868 | should_shutdown holds exactly when the end was handled and nothing is queued, and then every received byte was sent, although both byte counters wrap at 64 bits |
| `ProxyTheorems.EqualCountersMeanDrained` | fast_net/libs/liburing/examples/proxy.c:857-858 | equal wrapped byte counters leave no packet outstanding |
| `ProxyTheorems.RunKeeps` | fast_net/libs/liburing/examples/proxy.c:1280-1373 | every state of every run, for any kernel choice of amounts, bundles, MORE flags and completion order, satisfies the invariant |
| `ProxyTheorems.InitHolds` | fast_net/libs/liburing/examples/proxy.c:357-421 | the rings as set up, with the first receive armed, satisfy the invariant |
| `ProxySteps.HandleRecvKeeps` | fast_net/libs/liburing/examples/proxy.c:1280-1373 | handling a receive completion succeeds and keeps the invariant |
| `ProxySteps.HandleSendKeeps` | fast_net/libs/liburing/examples/proxy.c:1624-1711 | handling a send completion succeeds and keeps the invariant |
| `ProxySteps.ReceiveKeeps` | fast_net/libs/liburing/examples/proxy.c:683-733 | the kernel filling one or more buffers keeps the invariant |
| `ProxySteps.SendKeeps` | fast_net/libs/liburing/examples/proxy.c:1398-1443 | the kernel sending a prefix of the outgoing ring keeps the invariant |
| `ProxySteps.EofKeeps` | fast_net/libs/liburing/examples/proxy.c:1293-1304 | end of stream, with or without a buffer attached, keeps the invariant |
| `ProxySteps.NoRecvBufsKeeps` | fast_net/libs/liburing/examples/proxy.c:1383-1396 | a receive that finds no buffer keeps the invariant |
| `ProxySteps.HandleNoBufsKeeps` | fast_net/libs/liburing/examples/proxy.c:761-783 | handling -ENOBUFS submits a new receive at once, whatever is being sent, changes nothing else and keeps the invariant |
| `ProxySteps.HandleEofKeeps` | fast_net/libs/liburing/examples/proxy.c:1300-1303 | start_close kicks the last send, marks the direction and keeps the invariant |
| `ProxySteps.IdleSendIsDrained` | fast_net/libs/liburing/examples/proxy.c:1686-1703 | when no send is pending, the kernel has taken everything and no send completion is waiting |
| `ProxyInvariant.RecvWalkQueues` | fast_net/libs/liburing/examples/proxy.c:1196-1219 | recv_bids puts exactly the packets of one completion on the outgoing ring, each with its own length in its own slot |
| `ProxyInvariant.SendWalkRecycles` | fast_net/libs/liburing/examples/proxy.c:1556-1582 | handle_send_ring returns exactly the sent buffers, rewrites each receive slot with what it held, and counts the bytes |
| `ProxyInvariant.GatherReadsPackets` | fast_net/libs/liburing/examples/proxy.c:1421-1443 | what the socket reads from consecutive outgoing entries is the packets received, in order |
| `ProxyInvariant.StoreKeepsMemory` | fast_net/libs/liburing/examples/proxy.c:388-394 | a receive into the next buffers leaves every packet still needed intact in memory |
| `ProxyConn.Conn.constructor` | fast_net/libs/liburing/examples/proxy.c:388-421 | both rings as setup leaves them |
| `ProxyConn.Conn.RecvBids` | fast_net/libs/liburing/examples/proxy.c:1189-1222 | the loop over `in_bytes` computes the specification's walk on the shared arrays |
| `ProxyConn.Conn.HandleSendRing` | fast_net/libs/liburing/examples/proxy.c:1549-1588 | the loop over `bytes` computes the specification's walk, including the close it may trigger |
| `FileCopyRun.CopyFile` | fast_net/libs/liburing/examples/io_uring-cp.c:119-247 | for every input, completion order, short transfer, -EAGAIN and outside failure: the SQE assertion never fires; no wrong byte is ever written; a blocking wait with nothing outstanding needs a failed allocation or submit; returning 1 needs a failed operation or wait; returning 0 means the output equals the input exactly if no submit of reads was refused and no final write was short; it has ended one of these ways once there were more completions than twice the bytes of the input plus the completions that moved nothing; only what may go wrong does, and a copy in which nothing went wrong, or nothing may, returns 0 with the output complete |
| `FileCopyRun.ShortDrainLosesData` | fast_net/libs/liburing/examples/io_uring-cp.c:228-244 | from the start of a one-byte copy, step by step: a final write that moves nothing ends the copy normally with data missing |
| `FileCopyRun.RefusedReadsLoseData` | fast_net/libs/liburing/examples/io_uring-cp.c:155-161 | from the start of a copy of one chunk: a refused submit of its read ends the copy normally with an empty output |
| `FileCopyRun.HandleCompletion` | fast_net/libs/liburing/examples/io_uring-cp.c:188-223 | -EAGAIN requeues unchanged, another error fails, and any transfer keeps the invariant and lowers the bytes left to read plus the bytes left to write by exactly the bytes moved |
| `FileCopyRun.HandleShort` | fast_net/libs/liburing/examples/io_uring-cp.c:199-208 | a short transfer is requeued for the rest of its chunk |
| `FileCopyRun.Requeue` | fast_net/libs/liburing/examples/io_uring-cp.c:65-78 | requeueing a completed operation always finds an SQE, and exactly the operations that were outstanding are outstanding again |
| `FileCopyRun.QueueWrite` | fast_net/libs/liburing/examples/io_uring-cp.c:107-117 | a finished read becomes a write of the same chunk from its start |
| `FileCopyRun.HandleFull` | fast_net/libs/liburing/examples/io_uring-cp.c:214-222 | a full read is turned around and a full write is freed, with reads, writes and write_left adjusted to match |
| `FileCopyRun.FillQueue` | fast_net/libs/liburing/examples/io_uring-cp.c:136-153 | reads are queued, each of BS bytes or of what is left, until the input is used up, 64 operations are under way or an allocation fails, and the accounting stays exact |
| `FileCopyRun.QueueAndSubmit` | fast_net/libs/liburing/examples/io_uring-cp.c:133-161 | the head of the main loop: the invariant holds after the submit, or a refused submit leaves a queued read behind |
| `FileCopyRun.QueueRead` | fast_net/libs/liburing/examples/io_uring-cp.c:80-105 | a new record for the next chunk, or nothing when the allocation fails |
| `FileCopyRun.ReapLoop` | fast_net/libs/liburing/examples/io_uring-cp.c:163-224 | one blocking wait, then peeks, each completion handled; blocks for ever only with nothing outstanding |
| `FileCopyRun.ReapOne` | fast_net/libs/liburing/examples/io_uring-cp.c:188-223 | a completion handled with success does work for each byte it moved or counts as one that moved nothing |
| `FileCopyRun.DrainWrites` | fast_net/libs/liburing/examples/io_uring-cp.c:227-244 | the final loop: on return the output is complete exactly if nothing was refused or short |
| `FileCopyRun.CompletionKeepsInv` | fast_net/libs/liburing/examples/io_uring-cp.c:126-224 | write_left == insize + the chunk lengths of outstanding reads, the counts match the outstanding records, and records and file keep agreeing |
| `FileCopyRun.CountsBounded` | fast_net/libs/liburing/examples/io_uring-cp.c:140 | reads + writes <= QD, and write_left >= insize |
| `FileCopy.CompletionKeepsData` | fast_net/libs/liburing/examples/io_uring-cp.c:199-222 | after a completion of any size the chunks still partition the queued range and exactly the written prefix of each is in the output, with the right bytes |
| `FileCopy.CompleteIffAllWritten` | fast_net/libs/liburing/examples/io_uring-cp.c:227-246 | the output equals the input exactly when every chunk is written in full |
| `SubmissionQueue.GetSqeRefines` | fast_net/libs/liburing/src/include/liburing.h:1466-1489 | with a head that may be stale by any number of consumed entries: NULL exactly when the observed head shows a full ring; otherwise one more staged entry, cleared, and no queued or staged entry touched |
| `SubmissionQueue.NothingSurvives` | fast_net/libs/liburing/src/include/liburing.h:395-416 | a request prepared in an entry from get_sqe has the fields it was given and zero elsewhere, whatever used the slot before |
| `SubmissionQueue.FlushRefines` | fast_net/libs/liburing/src/queue.c:204-227 | a flush moves the staged entries to the end of the queue and returns its length |
| `SubmissionQueue.FillRefines` | fast_net/libs/liburing/src/include/liburing.h:407-416 | writing a staged entry changes that entry only |
| `SubmissionQueue.ConsumeRefines` | fast_net/libs/liburing/src/queue.c:219-226 | the kernel takes the head of the queue and leaves the rest |
| `SubmissionQueue.ReadyCounts` | fast_net/libs/liburing/src/include/liburing.h:1276-1300 | sq_ready counts queued and staged entries, and space_left is zero exactly when get_sqe returns NULL |
| `SubmissionQueue.FlushedIsConsumedInOrder` | fast_net/libs/liburing/src/queue.c:204-227 | over every interleaving, wherever the counters start: consumed entries followed by the queue are the flushed ones, once, in order, unmodified |
| `SubmissionRing.GetSqeWhileKernelRuns` | fast_net/libs/liburing/src/include/liburing.h:1473-1488 | get_sqe while the kernel consumes entries after the head was read |
| `SubmissionRing.Ring.constructor` | fast_net/libs/liburing/src/setup.c:344-353 | an empty ring whose slot array is the identity |
| `SubmissionRing.Ring.KernelConsume` | fast_net/libs/liburing/src/setup.c:344-353 | the kernel, reading through the slot array, gets the oldest flushed entry |
| `SubmissionRing.Ring.GetSqe` | fast_net/libs/liburing/src/include/liburing.h:1466-1489 | the same on the shared array, with the kernel running between the read of the head and its use |
| `SubmissionRing.Ring.FlushSq` | fast_net/libs/liburing/src/queue.c:204-227 | staged entries become visible, in order; the result is the queue length |
| `SubmissionRing.Ring.Submit` | fast_net/libs/liburing/src/queue.c:401-436 | everything staged is flushed; the kernel is entered exactly if there is something its thread is not awake to fetch, or completions are wanted or held back, with exactly the arguments and the wake-up that calls for; without a call the result is all that was pending, with one it is the call's; without a kernel thread a non-negative result is what the kernel took |
| `SubmissionRing.Ring.SubmitTimeout` | fast_net/libs/liburing/src/queue.c:276-297 | with a kernel thread running inside every step: on success liburing's timeout is queued last and nothing before it is lost; failure only when the ring was full and the submit failed or nothing was taken meanwhile; the kernel is entered only when the ring was full |
| `CompletionQueue.PostRefines` | fast_net/libs/liburing/src/include/liburing.h:1391-1417 | a post appends one unseen entry and overwrites none |
| `CompletionQueue.AdvanceRefines` | fast_net/libs/liburing/src/include/liburing.h:317-328 | advancing drops exactly that many of the oldest entries |
| `CompletionQueue.UnseenAt` | fast_net/libs/liburing/src/queue.c:180-183 | the k-th unseen entry is at the masked slot of a counter that may have wrapped |
| `CompletionQueue.DeliveredOnceInOrder` | fast_net/libs/liburing/src/include/liburing.h:306-328 | over every run: entries given back, then unseen ones, are exactly the posted ones, in order |
| `CompletionRing.Ring.Peek` | fast_net/libs/liburing/src/include/liburing.h:1391-1431 | the oldest unseen entry; without FEAT_EXT_ARG it drops leading timeout entries only, reports the error of a failed one, never shows one, and ends |
| `CompletionRing.Ring.Decide` | fast_net/libs/liburing/src/queue.c:82-109 | exactly when a round enters the kernel: to wait for what is missing, to submit what the kernel will not fetch itself, or once when the caller only looks and completions may be held back, but never twice in a wait with a timeout; and exactly when it gives up with -EAGAIN or -ETIME instead |
| `CompletionRing.Ring.Round` | fast_net/libs/liburing/src/queue.c:70-129 | one pass of the wait loop: what it finds, when and with which arguments it enters the kernel, what the result of that does to every variable, and where an error comes from |
| `CompletionRing.Ring.GetCqe` | fast_net/libs/liburing/src/queue.c:62-133 | the result is positive exactly if the first enter call found nothing and took something, and then is what it took, whatever follows; an error is that of the last enter, that of a dropped timeout, -EAGAIN with the ring empty and nothing to submit or wait for and nothing held back or asked for once, or -ETIME with the ring empty after the one wait with a timeout; every enter call asks for what is still to submit and for wait_nr, and there is another one only after a success that found nothing and while there is a reason; data->submit falls by exactly what the kernel took; no user entry is lost; an entry that is ready is returned in the first round; waiting with nothing to submit makes at most one call, and so does a timeout; if the kernel always takes something, at most submit + 1 calls |
| `CompletionRing.Ring.PeekBatch` | fast_net/libs/liburing/src/queue.c:162-198 | exactly the first min(count, ready) unseen entries, with the kernel posting up to the return; the kernel is entered once exactly if the ring is empty and it holds completions back; array tail untouched |
| `CompletionRing.Ring.FillFound` | fast_net/libs/liburing/src/queue.c:180-183 | the head != last loop ends, also when last wrapped below head, and what it found stays right while the kernel posts |
| `CompletionRing.Ring.ForEachAdvance` | fast_net/libs/liburing/src/include/liburing.h:306-328 | every entry posted up to the end of the iteration is visited once in order and then given back |
| `RingSetup.RoundupIsLeast` | fast_net/libs/liburing/src/setup.c:15-25 | defined exactly for 1 <= depth <= 2^31, and there the least power of two that holds depth |
| `RingSetup.GetSqCqEntries` | fast_net/libs/liburing/src/setup.c:27-60 | succeeds exactly on acceptable requests; both counts are powers of two, sq least for the clamped request, sq <= 32768, sq <= cq <= 65536; otherwise -EINVAL |
| `RingSetup.NpagesIsLeast` | fast_net/libs/liburing/src/setup.c:500-505 | 1 << npages is the least power-of-two page count that holds the size exactly when that many pages survive the cast to int |
| `RingSetup.RingsSize` | fast_net/libs/liburing/src/setup.c:507-526 | the sum of two least power-of-two page counts, covering both rings: a header and a slot of 16 bytes for every unit of the completion ring, a slot of 64 for every unit of the submission ring, two units an entry when they are wide |
| `UdpEchoRun.BuffersConserved` | fast_net/libs/liburing/examples/io_uring-udp.c:210-226 | in every continuing run each buffer is in exactly one place, once: ring, unhandled completion, or send under way |
| `UdpEchoRun.OneReceiveArmed` | fast_net/libs/liburing/examples/io_uring-udp.c:234-238 | exactly one multishot receive is armed whenever no completion that ended one is waiting |
| `UdpEchoRun.DispatchIsRight` | fast_net/libs/liburing/examples/io_uring-udp.c:317-323 | a completion's user_data is below BUFFERS exactly when a send posted it, and then it is that send's buffer |
| `UdpEchoRun.SendSlotsExclusive` | fast_net/libs/liburing/examples/io_uring-udp.c:297-312 | a send under way still owns its message slot, which points to its own buffer |
| `UdpEchoRun.EchoesWhatItReceived` | fast_net/libs/liburing/examples/io_uring-udp.c:227-316 | datagrams handed to the socket are received ones, none twice, none altered; only over-long or truncated ones are dropped; so with nothing under way every whole datagram was echoed as often as it was received |
| `UdpEchoRun.RunKeeps` | fast_net/libs/liburing/examples/io_uring-udp.c:381-397 | the invariant holds throughout every run |
| `UdpEchoRun.HandleKeeps` | fast_net/libs/liburing/examples/io_uring-udp.c:317-323 | handling any completion keeps it |
| `UdpEchoRun.SucceedsIffServed` | fast_net/libs/liburing/examples/io_uring-udp.c:227-323 | in every reachable state, handling the oldest completion succeeds exactly if a send posted it, or the receive goes on or can be renewed and it met an empty ring or brought a well-formed datagram that is dropped or for whose reply an entry is free |
| `UdpEchoRun.ServerGoesOn` | fast_net/libs/liburing/examples/io_uring-udp.c:390-396 | with well-formed datagrams, receives that fail only for want of buffers and free submission entries, no waiting completion ever ends the server |
| `UdpEchoRun.OutcomesKept` | fast_net/libs/liburing/examples/io_uring-udp.c:258-271 | every step keeps it so that drops are over-long or truncated, echoes and pending sends are whole, and completions carry their request's user_data |
| `UdpEchoRun.DeliverKeeps` | fast_net/libs/liburing/examples/io_uring-udp.c:201-206 | the kernel filling the next buffer of the ring keeps it |
| `UdpEchoRun.RingPut` | fast_net/libs/liburing/examples/io_uring-udp.c:210-215 | a recycled buffer goes behind the last one and overwrites no slot the kernel has yet to read |
| `UdpEcho.Server.constructor` | fast_net/libs/liburing/examples/io_uring-udp.c:82-86 | the buffers in order and one receive |
| `BufferPool.ThrowsIffExhausted` | fast_net/src/buffer_pool.hpp:128-146 | check_out throws exactly when the size is unknown or every buffer of it is checked out |
| `BufferPool.ThrowsIffLiveIsCapacity` | fast_net/src/buffer_pool.hpp:128-146 | the same in counts |
| `BufferPool.ScanIsFirstFit` | fast_net/src/buffer_pool.hpp:136-143 | the buffer found is the cyclically first free one from next_index |
| `BufferPool.VisitsEverySlot` | fast_net/src/buffer_pool.hpp:137 | (next + i) % capacity meets every slot |
| `BufferPool.VisitsOnce` | fast_net/src/buffer_pool.hpp:137 | and none twice |
| `BufferPool.CheckOutTakes` | fast_net/src/buffer_pool.hpp:138-141 | the buffer was free, is checked out, nothing else changed |
| `BufferPool.NextFit` | fast_net/src/buffer_pool.hpp:136-158 | next fit, whatever is checked in between: a check-out hands out the first free buffer behind the one handed out last, going round, so a buffer just given back comes again only when every other one is taken |
| `BufferPool.CheckInUndoes` | fast_net/src/buffer_pool.hpp:148-158 | check_in with the returned index restores the states when the slot number fits 16 bits |
| `BufferPool.RoundTripsIffIndexFits` | fast_net/src/buffer_pool.hpp:19-22 | check-out then check-in is the identity on the states, in every pool of a capacity, exactly when that capacity is at most 65536 |
| `BufferPool.CheckOutsInOrder` | fast_net/src/buffer_pool.hpp:136-143 | check-outs alone hand out the buffers of a new pool in order |
| `BufferPool.TruncationFreesAnother` | fast_net/src/buffer_pool.hpp:141 | in a new pool of more buffers, after 65536 check-outs the next returns index 0, and checking that in frees the first buffer, still in use |
| `BufferPool.InKeepsHeld` | fast_net/src/buffer_pool.hpp:148-158 | a check-in leaves exactly the held buffers checked out if and only if its buffer is among the first 65536 |
| `BufferPool.LiveBuffersAreHeldOnce` | fast_net/src/buffer_pool.hpp:128-158 | for any capacity, over every sequence of check-outs and matching check-ins of buffers a 16-bit index reaches (all of them, up to 65536 buffers a size): checked out means held, counts agree, a check-out never hands out a held buffer; up to 65536, held buffers have different indices |
| `BufferPool.BooksStraightIffReachable` | fast_net/src/buffer_pool.hpp:128-158 | that condition is exact: held and checked-out buffers agree throughout a run if and only if every check-in is of a buffer the index reaches |
| `BufferPool.Pool.constructor` | fast_net/src/buffer_pool.hpp:66-88 | every buffer of every requested size free |
| `BufferPool.Pool.CheckOut` | fast_net/src/buffer_pool.hpp:128-146 | the scan loop computes the specification |
| `PipelinedClient.Client.SendReceiveData` | fast_net/src/simple_iou_client.cpp:109-263 | the windows hold throughout, no get_sqe fails, a receive never runs out of buffers; a normal end has sent everything, and the loop stops once everything has been received; it fails only on a failed completion, runs out of send buffers only in a pool smaller than the number of requests, and takes at most two rounds a request besides the idle ones; so with neither failures nor idle rounds it ends normally, and in a ring of fewer than four entries never |
| `PipelinedClient.Client.SubmitSends` | fast_net/src/simple_iou_client.cpp:113-150 | sends stay within a quarter of the ring of the receives; fails exactly by an exhausted send pool |
| `PipelinedClient.Client.SubmitReceives` | fast_net/src/simple_iou_client.cpp:152-185 | receives stay within half the ring of the replies and never fail, since the pool holds that many |
| `PipelinedClient.Client.Complete` | fast_net/src/simple_iou_client.cpp:201-252 | a completion finds its own header in its buffer, counts a reply and returns the right buffer to the pool |
| `ClientTokens.BitsRoundTrip` | io_uring_fast_net_new/src/client.cpp:48-62 | unpacking undoes packing on the machine types; packing undoes unpacking exactly below 2^49 |
| `ClientTokens.PackBitsIsSum` | io_uring_fast_net_new/src/client.cpp:48-54 | the fields share no bit, so the disjunction is the sum used on numbers |
| `ClientTokens.RoundTripsIffFits` | io_uring_fast_net_new/src/client.cpp:48-62 | a token brings back index, direction and descriptor exactly when the index fits 32 bits and the descriptor 16 |
| `ClientTokens.Client.constructor` | io_uring_fast_net_new/src/client.cpp:436-439 | the index map leads from every descriptor to a connection with it |
| `ClientTokens.Client.Start` | io_uring_fast_net_new/src/client.cpp:176-204 | operation i uses buffer i, on the connection the buffer belongs to, until the ring is full; each is a send in full-duplex and a read in half-duplex mode, with its token |
| `ClientTokens.Client.Handle` | io_uring_fast_net_new/src/client.cpp:229-318 | the buffer's next operation exactly replaces the old one; only the counters of the operation's own descriptor change; in full-duplex mode the replies counted and the receives outstanding stay as many as the sends completed; the loop goes on exactly on data or -EAGAIN with an SQE to re-arm |
| `ClientTokens.StepsOnCourse` | io_uring_fast_net_new/src/client.cpp:229-318 | the counting behind it: before the limit a completion replaces its operation, after it every one but -EAGAIN brings the end nearer, and in full-duplex mode an operation's completions beyond two are paid for by replies before the limit |
| `ClientTokens.Client.Run` | io_uring_fast_net_new/src/client.cpp:214-365 | the loop ends on its time limit only after it and with nothing outstanding; in half-duplex mode it never waits with nothing outstanding and without faults ends there, within one completion an operation after the limit; in full-duplex mode it gets there only if no reply came before, and without faults waits for ever once the limit is later than one completion an operation; every other end needs its own fault; totals stay the per-connection sums |
| `ClientTokens.Client.Results` | io_uring_fast_net_new/src/client.cpp:367-373 | the reported totals are the bytes of all handled completions |
| `ProxyVectors.MsgVec.Append` | fast_net/libs/liburing/examples/proxy.c:1108-1120 | one segment more, across doubling |
| `ProxyVectors.Sender.Append` | fast_net/libs/liburing/examples/proxy.c:1108-1120 | appends to the active vector; what is in flight is neither changed nor moved |
| `ProxyVectors.Sender.PrepNextSend` | fast_net/libs/liburing/examples/proxy.c:1452-1515 | nothing while a send is pending, else the oldest segment or the whole vector, with MSG_MORE exactly while more of the vector remains; submitted and queued segments stay the appended ones |
| `ProxyVectors.Sender.SubmitVector` | fast_net/libs/liburing/examples/proxy.c:1474-1489 | the whole prepared vector goes into flight and the other, empty one becomes active |
| `ProxyVectors.Sender.SubmitSegment` | fast_net/libs/liburing/examples/proxy.c:1490-1514 | the oldest segment goes out; the inactive vector is always empty |
| `ProxyVectors.Sender.Run` | fast_net/libs/liburing/examples/proxy.c:1452-1515 | over every script of appends, sends and completions: submitted then queued is what was appended |

## Left out

- Proxy modes other than one direction with a send ring: bidirectional, sink, incremental buffers, recvmsg multishot and zero-copy notifications, whose byte accounting differs.
- Proxy errors other than -ENOBUFS: the handler fails and the connection loop ends, which is not followed further.
- Proxy statistics counters and buckets, accept, connect, socket, cancel, shutdown and close requests, and threads.
- Masking with `ring_entries - 1` is written as the remainder by a power of two.
- Memory barriers: acquire and release are modelled as the order of atomic steps.
- io_uring-cp records are values in a sequence named by index instead of heap objects; a record is never reused, so aliasing of freed memory is not captured.
- FileCopyRun.CopyFile: the number of completions is given as `fuel`, any number; only a copy that keeps getting -EAGAIN or zero-byte completions can outlast every `fuel`. The kernel's transfer is applied when its completion is taken.
- CompletionRing.Ring.GetCqe: rounds are bounded by `fuel`, any number; for the cases with a proved bound on enter calls, enough fuel means that the loop was left.
- CompletionRing.Ring.Enter: with entries to submit, nothing is assumed about how many completions are ready on return.
- CompletionRing.Ring.KernelPost: the extra 16 bytes of a wide completion entry are not modelled.
- RingSetup.RingsSize: the final product is taken as unbounded; it would wrap only for page sizes near 2^63.
- RingSetup.GetSqCqEntries: the mapping of the rings and the huge-page allocation are left out.
- UdpEchoRun.EchoesWhatItReceived: a send that completes with an error counts as handed to the socket.
- UdpEcho.Server.ProcessCqe: datagrams are told apart only as malformed, over-long name, truncated or whole; the parsing of the recvmsg header is a parameter.
- UDP runs end with the first handler that fails; what is left behind then is not stated.
- PipelinedClient.Client.SubmitSends: sends are not windowed by their own completions, so the send pool can be exhausted by sends still outstanding; that is the one failure stated, with its exact condition.
- PipelinedClient.Client.SendReceiveData: rounds are bounded by `fuel`, any number; counters are unbounded integers; a submit takes everything; the single-buffer mode, registered buffers and zero-copy sends are left out.
- ClientTokens.Client.Run: completions are bounded by `fuel`, any number; the clock is the number of completions handled before the time limit. Metrics are left out.
- BufferPool.LiveBuffersAreHeldOnce: pinning, registering and freeing the memory behind the buffers is left out.
- ProxyVectors.Sender.Run: the byte accounting of handle_send_buf is left out.
- Sockets, mmap, clocks, affinity, throughput figures and files of results.
