// Every step, of the kernel or of a handler, keeps the proxy invariant.
module ProxySteps {
  import opened Arith
  import opened Bytes
  import opened ProxyModel
  import opened ProxyMachine
  import opened ProxyInvariant

  // ---------- kernel steps ----------

  lemma SubmitKeeps(s: State, s': State, g: Log, n: nat, bufSize: nat)
    requires Inv(s, g, n, bufSize) && KernelSubmits(s, s')
    ensures Inv(s', g, n, bufSize)
  {
    assert Recvs(s.u.sq) == (if s.u.sq[0].RecvRequest? then 1 else 0) + Recvs(s.u.sq[1..]);
  }

  lemma AvailableIn(s: State, g: Log, n: nat, bufSize: nat)
    requires Inv(s, g, n, bufSize)
    ensures Available(s.u.inBr, s.k.inHead) == g.acked + n - |g.packets|
  {
    WrappedDistance(g.acked + n, |g.packets|, U16);
  }

  lemma AvailableOut(s: State, g: Log, n: nat, bufSize: nat)
    requires Inv(s, g, n, bufSize)
    ensures Available(s.u.outBr, s.k.outHead) == g.queued - g.sent
  {
    WrappedDistance(g.queued, g.sent, U16);
  }

  /** The id a receive completion carries is the packet number modulo the ring size. */
  lemma HeadBid(s: State, g: Log, n: nat, bufSize: nat)
    requires Inv(s, g, n, bufSize)
    ensures Entry(s.u.inBr, s.k.inHead).bid == |g.packets| % n
    ensures s.k.inHead % n == |g.packets| % n
  {
    ModMod(|g.packets|, U16, n);
  }

  lemma ChunksSpan(packets: seq<seq<Byte>>, chunks: seq<seq<Byte>>)
    ensures Span(packets + chunks, |packets|, |packets| + |chunks|) == |Cat(chunks)|
  {
    var all := packets + chunks;
    CatAppend(packets, chunks);
    SpanIsLength(packets);
    SpanIsLength(all);
    SpanPrefix(packets, chunks, 0, |packets|);
    SpanSplit(all, 0, |packets|, |all|);
  }

  lemma ChunksAreFull(br: BufRing, head: int, packets: seq<seq<Byte>>, chunks: seq<seq<Byte>>, bufSize: nat)
    requires |br.bufs| > 0 && InOk(br.bufs, bufSize) && Fits(br, head, chunks)
    ensures forall i :: |packets| <= i < |packets| + |chunks| - 1 ==> |(packets + chunks)[i]| == bufSize
  {
    var all := packets + chunks;
    forall i | |packets| <= i < |all| - 1 ensures |all[i]| == bufSize {
      assert Entry(br, head + (i - |packets|)).len == bufSize;
    }
  }

  lemma OutOkGrows(
      bufs: seq<Buf>, packets: seq<seq<Byte>>, chunks: seq<seq<Byte>>, start: nat, end: nat, bufSize: nat)
    requires OutOk(bufs, packets, start, end, bufSize)
    ensures OutOk(bufs, packets + chunks, start, end, bufSize)
  {
    hide Queued;
  }

  lemma ReceiveKeepsRings(s: State, chunks: seq<seq<Byte>>, more: bool, s': State, g: Log, n: nat, bufSize: nat)
    requires Inv(s, g, n, bufSize) && KernelReceives(s, chunks, more, s')
    ensures var g' := g.(packets := g.packets + chunks);
            Rings(s', g', n, bufSize) && Heads(s', g', n)
  {
    hide OutOk, InOk, MemOk, PacketsOk, Fits, Store, RecvQueue, SendQueue, Span, Cat, Life, Recvs;
    AvailableIn(s, g, n, bufSize);
    HeadBid(s, g, n, bufSize);
    OutOkGrows(s.u.outBr.bufs, g.packets, chunks, g.acked, g.queued, bufSize);
    StoreKeepsMemory(s.k.mem, s.u.inBr, s.k.inHead, chunks, g.packets, g.sent, bufSize);
    ModAdd(|g.packets|, |chunks|, U16);
  }

  lemma ReceiveKeepsQueues(s: State, chunks: seq<seq<Byte>>, more: bool, s': State, g: Log, n: nat, bufSize: nat)
    requires Inv(s, g, n, bufSize) && KernelReceives(s, chunks, more, s')
    ensures RecvQueue(s'.k.recvCq, g.queued, g.packets + chunks, n, bufSize)
    ensures Requests(s', g.(packets := g.packets + chunks))
  {
    hide Queued, Stored, Span, Cat;
    var p := Posted(Cqe(|Cat(chunks)|, Entry(s.u.inBr, s.k.inHead).bid, true, more), |chunks|);
    HeadBid(s, g, n, bufSize);
    ChunksAreFull(s.u.inBr, s.k.inHead, g.packets, chunks, bufSize);
    ChunksSpan(g.packets, chunks);
    RecvQueueAppend(s.k.recvCq, g.queued, g.packets, chunks, p, n, bufSize);
    LifePost(s.u.cd0.pendingRecv, Recvs(s.u.sq), s.k.recvCq, p);
  }

  lemma GrowKeepsCounts(u: User, g: Log, chunks: seq<seq<Byte>>, n: nat)
    requires n > 0 && g.acked <= g.queued <= |g.packets| && Directions(u, g, n)
    ensures Directions(u, g.(packets := g.packets + chunks), n)
  {
    SpanPrefix(g.packets, chunks, 0, g.queued);
    SpanPrefix(g.packets, chunks, 0, g.acked);
  }

  lemma GrowKeepsStreams(k: Kernel, k': Kernel, g: Log, chunks: seq<seq<Byte>>)
    requires g.sent <= |g.packets| && Streams(k, g)
    requires k'.recvd == k.recvd + Cat(chunks) && k'.sent == k.sent
    ensures Streams(k', g.(packets := g.packets + chunks))
  {
    CatAppend(g.packets, chunks);
    assert (g.packets + chunks)[..g.sent] == g.packets[..g.sent];
  }

  lemma ReceiveKeeps(s: State, chunks: seq<seq<Byte>>, more: bool, s': State, g: Log, n: nat, bufSize: nat)
    returns (g': Log)
    requires Inv(s, g, n, bufSize) && KernelReceives(s, chunks, more, s')
    ensures Inv(s', g', n, bufSize)
  {
    hide Queued, Stored, Span, Cat, Life, Recvs;
    g' := g.(packets := g.packets + chunks);
    ReceiveKeepsRings(s, chunks, more, s', g, n, bufSize);
    ReceiveKeepsQueues(s, chunks, more, s', g, n, bufSize);
    GrowKeepsCounts(s.u, g, chunks, n);
    GrowKeepsStreams(s.k, s'.k, g, chunks);
    SendQueueGrows(s.k.sendCq, g.acked, g.sent, g.packets, chunks, n);
  }

  /** A completion without packets: end of stream, or no buffers. */
  lemma RecvEndKeeps(s: State, p: Posted, s': State, g: Log, n: nat, bufSize: nat)
    requires Inv(s, g, n, bufSize) && s.k.recvArmed
    requires RecvEntry(p, |g.packets|, g.packets, n, bufSize) && p.count == 0
    requires s'.u == s.u
    requires s'.k == s.k.(recvArmed := false, eof := s'.k.eof, recvCq := s.k.recvCq + [p])
    requires s'.k.eof == (s.k.eof || IsEof(p))
    requires s.k.eof ==> s.u.cd0.pendingShutdown
    ensures Inv(s', g, n, bufSize)
  {
    hide OutOk, InOk, MemOk, PacketsOk, SendQueue, Span, Cat;
    assert g.packets + [] == g.packets;
    RecvQueueAppend(s.k.recvCq, g.queued, g.packets, [], p, n, bufSize);
    LifePost(s.u.cd0.pendingRecv, Recvs(s.u.sq), s.k.recvCq, p);
    assert s'.k.recvCq[|s'.k.recvCq| - 1] == p;
  }

  /** While a receive is armed, an end of stream was already handled if it was posted at all. */
  lemma ArmedAfterEof(s: State, g: Log, n: nat, bufSize: nat)
    requires Inv(s, g, n, bufSize) && s.k.recvArmed
    ensures s.k.eof ==> s.u.cd0.pendingShutdown
  {
  }

  lemma EofKeeps(s: State, hasBuf: bool, s': State, g: Log, n: nat, bufSize: nat)
    requires Inv(s, g, n, bufSize) && KernelEof(s, hasBuf, s')
    ensures Inv(s', g, n, bufSize)
  {
    HeadBid(s, g, n, bufSize);
    ArmedAfterEof(s, g, n, bufSize);
    var p := Posted(Cqe(0, if hasBuf then Entry(s.u.inBr, s.k.inHead).bid else 0, hasBuf, false), 0);
    RecvEndKeeps(s, p, s', g, n, bufSize);
  }

  lemma NoRecvBufsKeeps(s: State, s': State, g: Log, n: nat, bufSize: nat)
    requires Inv(s, g, n, bufSize) && KernelOutOfBuffers(s, s')
    ensures Inv(s', g, n, bufSize)
  {
    ArmedAfterEof(s, g, n, bufSize);
    RecvEndKeeps(s, Posted(Cqe(ENOBUFS, 0, false, false), 0), s', g, n, bufSize);
  }

  lemma PrefixGrows(packets: seq<seq<Byte>>, i: nat, count: nat)
    requires i + count <= |packets|
    ensures Cat(packets[..i]) + Cat(packets[i..i + count]) == Cat(packets[..i + count])
    ensures |Cat(packets[i..i + count])| == Span(packets, i, i + count)
  {
    var a, b := packets[..i], packets[i..i + count];
    CatAppend(a, b);
    assert a + b == packets[..i + count];
    SpanOfPrefix(packets, i);
    SpanOfPrefix(packets, i + count);
    SpanSplit(packets, 0, i, i + count);
  }

  /** The bytes a send reports are the packets it took, as received. */
  lemma SendTakesPackets(s: State, count: nat, g: Log, n: nat, bufSize: nat)
    requires Rings(s, g, n, bufSize) && Heads(s, g, n) && g.sent + count <= g.queued
    ensures Gather(s.k.mem, s.u.outBr, s.k.outHead, count) == Cat(g.packets[g.sent..g.sent + count])
  {
    GatherReadsPackets(s.k.mem, s.u.outBr, s.k.outHead, g.packets, g.sent, count, g.queued, bufSize);
  }

  lemma SpanOfPrefix(packets: seq<seq<Byte>>, k: nat)
    requires k <= |packets|
    ensures Span(packets, 0, k) == |Cat(packets[..k])|
  {
    SpanIsLength(packets[..k]);
    SpanPrefix(packets[..k], packets[k..], 0, k);
    assert packets[..k] + packets[k..] == packets;
  }

  lemma SendKeepsQueue(s: State, count: nat, p: Posted, g: Log, n: nat, bufSize: nat)
    requires Rings(s, g, n, bufSize) && Heads(s, g, n) && SendQueue(s.k.sendCq, g.acked, g.sent, g.packets, n)
    requires 0 < count && g.sent + count <= g.queued && p.count == count
    requires p.cqe.res == |Cat(g.packets[g.sent..g.sent + count])| && p.cqe.hasBuf
    requires p.cqe.bid == Entry(s.u.outBr, s.k.outHead).bid
    ensures SendQueue(s.k.sendCq + [p], g.acked, g.sent + count, g.packets, n)
  {
    hide Stored, InOk, PacketsOk, Cat;
    PrefixGrows(g.packets, g.sent, count);
    ModMod(g.sent, U16, n);
    assert Queued(s.u.outBr.bufs, g.sent, |g.packets[g.sent]|, bufSize);
    SendQueueAppend(s.k.sendCq, g.acked, g.sent, g.packets, p, n);
  }

  lemma SendKeepsRequests(s: State, count: nat, p: Posted, s': State, g: Log)
    requires Requests(s, g) && s.k.sendArmed && s'.u == s.u
    requires s'.k.recvArmed == s.k.recvArmed && s'.k.recvCq == s.k.recvCq
    requires s'.k.sendArmed == p.cqe.more && s'.k.sendCq == s.k.sendCq + [p]
    requires p.cqe.more ==> g.sent + count < g.queued
    ensures Requests(s', g.(sent := g.sent + count))
  {
    LifePost(s.u.cd1.pendingSend, |s.u.sq| - Recvs(s.u.sq), s.k.sendCq, p);
  }

  lemma SendKeepsRings(s: State, count: nat, s': State, g: Log, n: nat, bufSize: nat)
    requires Rings(s, g, n, bufSize) && Heads(s, g, n) && g.sent + count <= g.queued
    requires s'.u == s.u && s'.k.mem == s.k.mem && s'.k.inHead == s.k.inHead
    requires s'.k.outHead == (s.k.outHead + count) % U16
    ensures Rings(s', g.(sent := g.sent + count), n, bufSize) && Heads(s', g.(sent := g.sent + count), n)
  {
    ModAdd(g.sent, count, U16);
  }

  lemma SendKeepsStreams(k: Kernel, count: nat, k': Kernel, g: Log)
    requires g.sent + count <= |g.packets| && Streams(k, g)
    requires k'.recvd == k.recvd && k'.sent == k.sent + Cat(g.packets[g.sent..g.sent + count])
    ensures Streams(k', g.(sent := g.sent + count))
  {
    PrefixGrows(g.packets, g.sent, count);
  }

  lemma SendKeeps(s: State, count: nat, more: bool, s': State, g: Log, n: nat, bufSize: nat)
    returns (g': Log)
    requires Inv(s, g, n, bufSize) && KernelSends(s, count, more, s')
    ensures Inv(s', g', n, bufSize)
  {
    hide Queued, Stored, InOk, PacketsOk, Span, Cat, Life, Recvs;
    g' := g.(sent := g.sent + count);
    AvailableOut(s, g, n, bufSize);
    SendTakesPackets(s, count, g, n, bufSize);
    var p := s'.k.sendCq[|s.k.sendCq|];
    SendKeepsQueue(s, count, p, g, n, bufSize);
    SendKeepsRequests(s, count, p, s', g);
    SendKeepsRings(s, count, s', g, n, bufSize);
    SendKeepsStreams(s.k, count, s'.k, g);
  }

  /** A submitted ring send never finds the outgoing ring empty. */
  lemma SendAlwaysHasWork(s: State, s': State, g: Log, n: nat, bufSize: nat)
    requires Inv(s, g, n, bufSize)
    ensures !KernelHasNothingToSend(s, s')
  {
    AvailableOut(s, g, n, bufSize);
  }

  // ---------- handler steps ----------

  lemma PushRecv(u: User)
    requires !u.cd0.pendingRecv
    ensures SubmitReceive(u).outcome == Handled
    ensures Recvs(SubmitReceive(u).user.sq) == Recvs(u.sq) + 1
  {
    RecvsAppend(u.sq, RecvRequest);
  }

  lemma PushSend(u: User)
    requires WillSend(u.cd1)
    ensures Recvs(PrepNextSend1(u).sq) == Recvs(u.sq) && |PrepNextSend1(u).sq| == |u.sq| + 1
  {
    RecvsAppend(u.sq, SendRequest(SendBid(u.cd1)));
  }

  /** prep_next_send keeps the request life cycles; afterwards either a send is pending or nothing is queued. */
  lemma PrepKeepsRequests(s: State, g: Log)
    requires Requests(s, g) && g.acked <= g.sent <= g.queued && s.u.cd1.outBuffers == g.queued - g.acked
    requires !s.u.cd1.pendingSend ==> g.acked == g.sent
    ensures Requests(s.(u := PrepNextSend1(s.u)), g)
    ensures PrepNextSend1(s.u).cd1.pendingSend || PrepNextSend1(s.u).cd1.outBuffers == 0
  {
    if WillSend(s.u.cd1) {
      PushSend(s.u);
    }
  }

  lemma SubmitKeepsRequests(s: State, g: Log)
    requires Requests(s, g) && !s.u.cd0.pendingRecv
    ensures SubmitReceive(s.u).outcome == Handled
    ensures Requests(s.(u := SubmitReceive(s.u).user), g)
  {
    PushRecv(s.u);
  }

  /** When no send is pending, every sent packet has been acknowledged. */
  lemma IdleSendIsDrained(s: State, g: Log, n: nat, bufSize: nat)
    requires Inv(s, g, n, bufSize) && !s.u.cd1.pendingSend
    ensures g.acked == g.sent
  {
  }

  // ---------- handle_recv ----------

  /** The state with the first receive completion taken off the queue. */
  function PopRecv(k: Kernel): Kernel
    requires |k.recvCq| > 0
  {
    k.(recvCq := k.recvCq[1..])
  }

  function PopSend(k: Kernel): Kernel
    requires |k.sendCq| > 0
  {
    k.(sendCq := k.sendCq[1..])
  }

  /** Everything in the invariant that the request flags do not touch. */
  ghost predicate Data(s: State, g: Log, n: nat, bufSize: nat) {
    && Rings(s, g, n, bufSize)
    && Heads(s, g, n)
    && Streams(s.k, g)
    && RecvQueue(s.k.recvCq, g.queued, g.packets, n, bufSize)
    && SendQueue(s.k.sendCq, g.acked, g.sent, g.packets, n)
  }

  lemma RecvIsCallable(s: State, g: Log, n: nat, bufSize: nat)
    requires Inv(s, g, n, bufSize) && |s.k.recvCq| > 0
    ensures RecvCallable(s.u, s.k.recvCq[0].cqe)
    ensures var c := s.k.recvCq[0].cqe;
            c.res >= 0 && c.hasBuf ==> !BidMismatch(s.u.cd0.rcvNextBid, c.bid)
  {
    var p := s.k.recvCq[0];
    if p.cqe.res >= 0 && p.cqe.hasBuf {
      assert p.cqe.bid == g.queued % n;
    }
  }

  /** Taking the last completion of a receive clears the way for a new one. */
  lemma PopLastRequest(s: State, g: Log)
    requires Requests(s, g) && |s.k.recvCq| > 0 && !s.k.recvCq[0].cqe.more
    ensures Requests(State(s.u.(cd0 := s.u.cd0.(pendingRecv := false)), PopRecv(s.k)), g)
    ensures |s.k.recvCq| == 1
  {
    LifeTake(s.u.cd0.pendingRecv, Recvs(s.u.sq), s.k.recvArmed, s.k.recvCq);
  }

  /** A one-element queue accounts for all packets. */
  lemma LastCompletes(q: seq<Posted>, start: nat, packets: seq<seq<Byte>>, n: nat, bufSize: nat)
    requires n > 0 && |q| == 1 && RecvQueue(q, start, packets, n, bufSize)
    ensures start + q[0].count == |packets|
  {
    assert |q[1..]| == 0;
  }

  lemma PopLastRecv(s: State, g: Log, n: nat, bufSize: nat)
    requires n > 0 && RecvQueue(s.k.recvCq, g.queued, g.packets, n, bufSize) && Requests(s, g)
    requires |s.k.recvCq| > 0 && !s.k.recvCq[0].cqe.more
    ensures Requests(State(s.u.(cd0 := s.u.cd0.(pendingRecv := false)), PopRecv(s.k)), g)
    ensures |s.k.recvCq| == 1 && g.queued + s.k.recvCq[0].count == |g.packets|
  {
    PopLastRequest(s, g);
    LastCompletes(s.k.recvCq, g.queued, g.packets, n, bufSize);
  }

  lemma PopMoreRecv(s: State, g: Log)
    requires Requests(s, g) && |s.k.recvCq| > 0 && s.k.recvCq[0].cqe.more
    ensures Requests(State(s.u, PopRecv(s.k)), g) && s.u.cd0.pendingRecv
  {
    LifeTake(s.u.cd0.pendingRecv, Recvs(s.u.sq), s.k.recvArmed, s.k.recvCq);
  }

  /** -ENOBUFS: the receive is armed again at once. */
  lemma HandleNoBufsKeeps(s: State, g: Log, n: nat, bufSize: nat)
    requires Inv(s, g, n, bufSize) && |s.k.recvCq| > 0 && s.k.recvCq[0].cqe.res < 0
    ensures var r := HandleRecv(s.u, s.k.recvCq[0].cqe);
            && r.outcome == Handled && Inv(State(r.user, PopRecv(s.k)), g, n, bufSize)
            && r.user == s.u.(cd0 := s.u.cd0.(pendingRecv := true), sq := s.u.sq + [RecvRequest])
  {
    PopLastRecv(s, g, n, bufSize);
    var s1 := State(s.u.(cd0 := s.u.cd0.(pendingRecv := false)), PopRecv(s.k));
    SubmitKeepsRequests(s1, g);
    assert !IsEof(s.k.recvCq[0]);
  }

  /** Starting to close: a send is issued for whatever is queued, and the end is recorded. */
  lemma StartCloseKeeps(s: State, g: Log, n: nat, bufSize: nat)
    requires Data(s, g, n, bufSize) && Directions(s.u, g, n) && Requests(s, g) && s.k.eof
    requires g.queued == |g.packets| && (!s.u.cd1.pendingSend ==> g.acked == g.sent)
    ensures Inv(State(StartClose(s.u), s.k), g, n, bufSize)
  {
    hide Life, Recvs, InOk, OutOk, MemOk, PacketsOk, RecvQueue, SendQueue, Streams, Span;
    PrepKeepsRequests(s, g);
  }

  /** A completion without an error carries bytes exactly when it carries packets. */
  lemma BytesMeanPackets(p: Posted, start: nat, packets: seq<seq<Byte>>, n: nat, bufSize: nat)
    requires n > 0 && RecvEntry(p, start, packets, n, bufSize) && PacketsOk(packets, bufSize)
    ensures p.cqe.res > 0 <==> p.count > 0
  {
    if p.count > 0 {
      SpanBound(packets, start, start + p.count, bufSize);
    }
  }

  /** A zero-byte completion is an end of stream, and the only completion queued. */
  lemma NoDataAtEnd(s: State, g: Log, n: nat, bufSize: nat)
    requires n > 0 && RecvQueue(s.k.recvCq, g.queued, g.packets, n, bufSize) && PacketsOk(g.packets, bufSize)
    requires Requests(s, g) && Ending(s, g)
    requires |s.k.recvCq| > 0 && s.k.recvCq[0].cqe.res == 0
    ensures s.k.recvCq[0].count == 0 && !s.k.recvCq[0].cqe.more && s.k.eof
  {
    BytesMeanPackets(s.k.recvCq[0], g.queued, g.packets, n, bufSize);
    PopLastRequest(s, g);
  }

  /** The user side of the zero-byte completion: only the close is left to do. */
  lemma HandleEofUser(u: User, c: Cqe)
    requires RecvCallable(u, c) && c.res == 0 && !c.more && !(c.hasBuf && BidMismatch(u.cd0.rcvNextBid, c.bid))
    requires u.cd1.outBuffers <= |u.inBr.bufs| && 0 <= u.outBr.tail < U16
    ensures var u1 := u.(cd0 := u.cd0.(pendingRecv := false,
                                       rcvNextBid := if c.hasBuf then c.bid else u.cd0.rcvNextBid));
            HandleRecv(u, c) == Reply(StartClose(u1), Handled)
  {
    if c.hasBuf {
      ModSmall(u.outBr.tail, U16);
      assert Enqueue(u, c) == u.(cd0 := u.cd0.(rcvNextBid := c.bid));
    }
  }

  lemma HandleEofKeeps(s: State, g: Log, n: nat, bufSize: nat)
    requires Inv(s, g, n, bufSize) && |s.k.recvCq| > 0 && s.k.recvCq[0].cqe.res == 0
    ensures RecvCallable(s.u, s.k.recvCq[0].cqe)
    ensures var r := HandleRecv(s.u, s.k.recvCq[0].cqe);
            r.outcome == Handled && Inv(State(r.user, PopRecv(s.k)), g, n, bufSize)
  {
    hide Queued, Stored, Cat, OutOk, InOk, MemOk, Span, Life, Recvs, StartClose, HandleRecv, SendQueue;
    RecvIsCallable(s, g, n, bufSize);
    if !s.u.cd1.pendingSend {
      IdleSendIsDrained(s, g, n, bufSize);
    }
    NoDataAtEnd(s, g, n, bufSize);
    PopLastRecv(s, g, n, bufSize);
    var c := s.k.recvCq[0].cqe;
    HandleEofUser(s.u, c);
    var u1 := s.u.(cd0 := s.u.cd0.(pendingRecv := false,
                                   rcvNextBid := if c.hasBuf then c.bid else s.u.cd0.rcvNextBid));
    StartCloseKeeps(State(u1, PopRecv(s.k)), g, n, bufSize);
  }

  /** recv_bids' walk on a reachable state: the completion's packets, each in its slot. */
  lemma EnqueueWalk(s: State, g: Log, n: nat, bufSize: nat)
    requires Rings(s, g, n, bufSize) && Heads(s, g, n)
    requires RecvQueue(s.k.recvCq, g.queued, g.packets, n, bufSize)
    requires |s.k.recvCq| > 0 && s.k.recvCq[0].count > 0 && RecvCallable(s.u, s.k.recvCq[0].cqe)
    ensures var p := s.k.recvCq[0];
            var end := g.queued + p.count;
            && p.cqe.res > 0 && p.cqe.hasBuf && end <= |g.packets|
            && var w := RecvWalk(s.u.inBr.bufs, s.u.outBr, p.cqe.bid, p.cqe.res, 0);
               && w.count == p.count && w.bid == end % n
               && OutOk(w.ring.bufs, g.packets, g.acked, end, bufSize)
  {
    var p := s.k.recvCq[0];
    BytesMeanPackets(p, g.queued, g.packets, n, bufSize);
    RecvWalkQueues(s.u.inBr.bufs, s.u.outBr, p.cqe.bid, 0,
                   g.packets, g.acked, g.queued, g.queued + p.count, bufSize);
  }

  /** The ring and stream part of queueing a completion's packets. */
  lemma EnqueueMovesPackets(s: State, g: Log, n: nat, bufSize: nat)
    requires Data(s, g, n, bufSize) && |s.k.recvCq| > 0 && s.k.recvCq[0].count > 0
    requires RecvCallable(s.u, s.k.recvCq[0].cqe)
    ensures var p := s.k.recvCq[0];
            var u2 := Enqueue(s.u, p.cqe);
            var g' := g.(queued := g.queued + p.count);
            && p.cqe.res > 0 && p.cqe.hasBuf
            && Data(State(u2, PopRecv(s.k)), g', n, bufSize)
            && u2 == s.u.(outBr := u2.outBr,
                          cd1 := s.u.cd1.(outBuffers := s.u.cd1.outBuffers + p.count),
                          cd0 := s.u.cd0.(rcvNextBid := g'.queued % n))
  {
    hide InOk, OutOk, MemOk, PacketsOk, SendQueue, RecvWalk, Span;
    EnqueueWalk(s, g, n, bufSize);
    ModAdd(g.queued, s.k.recvCq[0].count, U16);
  }

  /** Counting the received bytes catches the byte counter up with the queued packets. */
  lemma CountInKeeps(u: User, g: Log, count: nat, res: nat, n: nat)
    requires n > 0 && g.acked <= g.queued && g.queued + count <= |g.packets| && Directions(u, g, n)
    requires res == Span(g.packets, g.queued, g.queued + count)
    ensures (u.cd0.inBytes + res) % U64 == Span(g.packets, 0, g.queued + count) % U64
  {
    SpanSplit(g.packets, 0, g.queued, g.queued + count);
    ModAdd(Span(g.packets, 0, g.queued), res, U64);
  }

  /** The users a handler may leave behind when it only pushes requests and counts bytes. */
  ghost predicate OnlyFlags(u: User, u': User, inBytes: int) {
    u' == u.(sq := u'.sq,
             cd0 := u.cd0.(pendingRecv := u'.cd0.pendingRecv, inBytes := inBytes),
             cd1 := u.cd1.(pendingSend := u'.cd1.pendingSend))
  }

  /** Requests do not depend on what is queued for sending, as long as it only grows. */
  lemma QueueKeepsRequests(u: User, u2: User, k: Kernel, g: Log, count: nat)
    requires Requests(State(u, k), g) && u2.sq == u.sq
    requires u2.cd0.pendingRecv == u.cd0.pendingRecv && u2.cd1.pendingSend == u.cd1.pendingSend
    ensures Requests(State(u2, k), g.(queued := g.queued + count))
  {
    hide Life, Recvs;
  }

  /** A multishot receive goes on: at most a send is issued. */
  lemma AfterEnqueueMore(u: User, k: Kernel, c: Cqe, g: Log)
    requires Shape(u) && c.res > 0 && c.more && u.cd0.pendingRecv && Requests(State(u, k), g)
    requires g.acked <= g.sent <= g.queued && u.cd1.outBuffers == g.queued - g.acked
    requires !u.cd1.pendingSend ==> g.acked == g.sent
    ensures var r := AfterEnqueue(u, c);
            && r.outcome == Handled && Requests(State(r.user, k), g) && Moving(r.user)
            && OnlyFlags(u, r.user, (u.cd0.inBytes + c.res) % U64)
  {
    hide Requests;
    PrepKeepsRequests(State(u, k), g);
    var enough := !u.cd1.pendingSend && u.cd1.outBuffers >= |u.inBr.bufs| / 2;
    QueueKeepsRequests(if enough then PrepNextSend1(u) else u, AfterEnqueue(u, c).user, k, g, 0);
  }

  /** The receive ended: it is armed again unless a send will do so, and a send is issued. */
  lemma AfterEnqueueLast(u: User, k: Kernel, c: Cqe, g: Log)
    requires Shape(u) && c.res > 0 && !c.more
    requires Requests(State(u.(cd0 := u.cd0.(pendingRecv := false)), k), g)
    requires g.acked <= g.sent <= g.queued && u.cd1.outBuffers == g.queued - g.acked
    requires !u.cd1.pendingSend ==> g.acked == g.sent
    ensures var r := AfterEnqueue(u, c);
            && r.outcome == Handled && Requests(State(r.user, k), g) && Moving(r.user)
            && OnlyFlags(u, r.user, (u.cd0.inBytes + c.res) % U64)
  {
    hide Requests;
    var u1 := u.(cd0 := u.cd0.(pendingRecv := false));
    if u1.cd1.pendingSend {
      assert PrepNextSend1(u1) == u1;
      QueueKeepsRequests(u1, AfterEnqueue(u, c).user, k, g, 0);
    } else {
      SubmitKeepsRequests(State(u1, k), g);
      PrepKeepsRequests(State(SubmitReceive(u1).user, k), g);
      QueueKeepsRequests(PrepNextSend1(SubmitReceive(u1).user), AfterEnqueue(u, c).user, k, g, 0);
    }
  }

  /** Past its checks, handle_recv is the enqueueing followed by the request bookkeeping. */
  lemma HandleDataIsEnqueue(s: State, g: Log, n: nat, bufSize: nat)
    requires Inv(s, g, n, bufSize) && |s.k.recvCq| > 0 && s.k.recvCq[0].count > 0
    requires RecvCallable(s.u, s.k.recvCq[0].cqe) && s.k.recvCq[0].cqe.res > 0
    ensures var p := s.k.recvCq[0];
            var u2 := Enqueue(s.u, p.cqe);
            var g' := g.(queued := g.queued + p.count);
            && Data(State(u2, PopRecv(s.k)), g', n, bufSize)
            && u2 == s.u.(outBr := u2.outBr,
                          cd1 := s.u.cd1.(outBuffers := s.u.cd1.outBuffers + p.count),
                          cd0 := s.u.cd0.(rcvNextBid := g'.queued % n))
            && HandleRecv(s.u, p.cqe) == AfterEnqueue(u2, p.cqe)
  {
    hide InOk, OutOk, MemOk, PacketsOk, SendQueue, RecvWalk, Span, Life, Streams;
    RecvIsCallable(s, g, n, bufSize);
    EnqueueMovesPackets(s, g, n, bufSize);
  }

  lemma HandleDataReply(s: State, g: Log, n: nat, bufSize: nat)
    requires Inv(s, g, n, bufSize) && |s.k.recvCq| > 0 && s.k.recvCq[0].count > 0
    requires RecvCallable(s.u, s.k.recvCq[0].cqe) && s.k.recvCq[0].cqe.res > 0 && s.k.recvCq[0].cqe.hasBuf
    ensures var p := s.k.recvCq[0];
            var u2 := Enqueue(s.u, p.cqe);
            var r := AfterEnqueue(u2, p.cqe);
            var g' := g.(queued := g.queued + p.count);
            && r.outcome == Handled && Requests(State(r.user, PopRecv(s.k)), g') && Moving(r.user)
            && OnlyFlags(u2, r.user, (s.u.cd0.inBytes + p.cqe.res) % U64)
  {
    hide Data, RecvWalk, Life, Streams, Heads, AllPositive;
    var p := s.k.recvCq[0];
    HandleDataIsEnqueue(s, g, n, bufSize);
    HandleDataRequests(s, g, n, bufSize);
    var g' := g.(queued := g.queued + p.count);
    if p.cqe.more {
      AfterEnqueueMore(Enqueue(s.u, p.cqe), PopRecv(s.k), p.cqe, g');
    } else {
      AfterEnqueueLast(Enqueue(s.u, p.cqe), PopRecv(s.k), p.cqe, g');
    }
  }

  /** Request flags and byte counters are no part of the data. */
  lemma FlagsKeepData(u: User, u': User, inBytes: int, k: Kernel, g: Log, n: nat, bufSize: nat)
    requires Data(State(u, k), g, n, bufSize) && OnlyFlags(u, u', inBytes)
    ensures Data(State(u', k), g, n, bufSize)
  {
    hide InOk, OutOk, MemOk, PacketsOk, RecvQueue, SendQueue, Cat;
  }

  /** Queueing a completion's packets and counting its bytes moves the directions along. */
  lemma QueueKeepsDirections(u: User, u2: User, u': User, g: Log, count: nat, res: nat, n: nat)
    requires n > 0 && g.acked <= g.queued && g.queued + count <= |g.packets| && Directions(u, g, n)
    requires res == Span(g.packets, g.queued, g.queued + count)
    requires u2 == u.(outBr := u2.outBr, cd1 := u.cd1.(outBuffers := u.cd1.outBuffers + count),
                      cd0 := u.cd0.(rcvNextBid := (g.queued + count) % n))
    requires OnlyFlags(u2, u', (u.cd0.inBytes + res) % U64)
    ensures Directions(u', g.(queued := g.queued + count), n)
  {
    hide Span;
    CountInKeeps(u, g, count, res, n);
  }

  lemma HandleDataKeeps(s: State, g: Log, n: nat, bufSize: nat) returns (g': Log)
    requires Inv(s, g, n, bufSize) && |s.k.recvCq| > 0 && s.k.recvCq[0].cqe.res > 0
    ensures RecvCallable(s.u, s.k.recvCq[0].cqe)
    ensures var r := HandleRecv(s.u, s.k.recvCq[0].cqe);
            r.outcome == Handled && Inv(State(r.user, PopRecv(s.k)), g', n, bufSize)
  {
    hide InOk, OutOk, MemOk, SendQueue, AllPositive, Recvs, Life, Requests, Heads, Streams, HandleRecv, AfterEnqueue,
         Enqueue, Span, Cat;
    var p := s.k.recvCq[0];
    g' := g.(queued := g.queued + p.count);
    RecvIsCallable(s, g, n, bufSize);
    BytesMeanPackets(p, g.queued, g.packets, n, bufSize);
    HandleDataIsEnqueue(s, g, n, bufSize);
    HandleDataReply(s, g, n, bufSize);
    var u2, u' := Enqueue(s.u, p.cqe), HandleRecv(s.u, p.cqe).user;
    QueueKeepsDirections(s.u, u2, u', g, p.count, p.cqe.res, n);
    FlagsKeepData(u2, u', (s.u.cd0.inBytes + p.cqe.res) % U64, PopRecv(s.k), g', n, bufSize);
    HandleDataEnding(s, State(u', PopRecv(s.k)), g, n, bufSize);
  }

  lemma HandleDataRequests(s: State, g: Log, n: nat, bufSize: nat)
    requires Inv(s, g, n, bufSize) && |s.k.recvCq| > 0 && s.k.recvCq[0].cqe.res > 0
    requires RecvCallable(s.u, s.k.recvCq[0].cqe) && s.k.recvCq[0].cqe.hasBuf
    ensures var p := s.k.recvCq[0];
            var u2 := Enqueue(s.u, p.cqe);
            var g' := g.(queued := g.queued + p.count);
            && (p.cqe.more ==> Requests(State(u2, PopRecv(s.k)), g') && u2.cd0.pendingRecv)
            && (!p.cqe.more ==> Requests(State(u2.(cd0 := u2.cd0.(pendingRecv := false)), PopRecv(s.k)), g'))
            && (!u2.cd1.pendingSend ==> g'.acked == g'.sent)
  {
    hide Requests, SendQueue, RecvQueue, RecvWalk, OutOk, InOk, MemOk, PacketsOk, Span, Cat;
    var p := s.k.recvCq[0];
    var u2 := Enqueue(s.u, p.cqe);
    if !s.u.cd1.pendingSend {
      IdleSendIsDrained(s, g, n, bufSize);
    }
    if p.cqe.more {
      PopMoreRecv(s, g);
      QueueKeepsRequests(s.u, u2, PopRecv(s.k), g, p.count);
    } else {
      PopLastRequest(s, g);
      QueueKeepsRequests(s.u.(cd0 := s.u.cd0.(pendingRecv := false)), u2.(cd0 := u2.cd0.(pendingRecv := false)),
                         PopRecv(s.k), g, p.count);
    }
  }

  lemma HandleDataEnding(s: State, s': State, g: Log, n: nat, bufSize: nat)
    requires Inv(s, g, n, bufSize) && |s.k.recvCq| > 0 && s.k.recvCq[0].count > 0
    requires s'.k == PopRecv(s.k)
    requires s'.u.cd0.pendingShutdown == s.u.cd0.pendingShutdown
    requires s'.u.cd1.pendingShutdown == s.u.cd1.pendingShutdown
    ensures Ending(s', g.(queued := g.queued + s.k.recvCq[0].count))
  {
    var q := s.k.recvCq;
    assert !IsEof(q[0]);
    assert |q| > 1 ==> q[1..][|q| - 2] == q[|q| - 1];
  }

  /** Every receive completion is handled without a failure, a mismatch or a broken assertion. */
  lemma HandleRecvKeeps(s: State, g: Log, n: nat, bufSize: nat) returns (g': Log)
    requires Inv(s, g, n, bufSize) && |s.k.recvCq| > 0
    ensures RecvCallable(s.u, s.k.recvCq[0].cqe)
    ensures var r := HandleRecv(s.u, s.k.recvCq[0].cqe);
            r.outcome == Handled && Inv(State(r.user, PopRecv(s.k)), g', n, bufSize)
  {
    var res := s.k.recvCq[0].cqe.res;
    g' := g;
    if res < 0 {
      HandleNoBufsKeeps(s, g, n, bufSize);
    } else if res == 0 {
      HandleEofKeeps(s, g, n, bufSize);
    } else {
      g' := HandleDataKeeps(s, g, n, bufSize);
    }
  }

  // ---------- handle_send ----------

  lemma SendIsCallable(s: State, g: Log, n: nat, bufSize: nat)
    requires Inv(s, g, n, bufSize) && |s.k.sendCq| > 0
    ensures SendCallable(s.u, s.k.sendCq[0].cqe)
    ensures var p := s.k.sendCq[0];
            && p.cqe.res > 0 && p.cqe.hasBuf && !BidMismatch(s.u.cd1.sndNextBid, p.cqe.bid)
            && g.acked + p.count <= g.sent
  {
    var p := s.k.sendCq[0];
    SendQueueOrdered(s.k.sendCq, g.acked, g.sent, g.packets, n);
    SpanBound(g.packets, g.acked, g.acked + p.count, bufSize);
    OutCovers(s.u.outBr.bufs, p.cqe.bid, g.packets, g.acked, g.acked + p.count, bufSize);
  }

  /** handle_send_ring's walk on a reachable state: slots unchanged, counters moved by the packets sent. */
  lemma RecycleWalk(s: State, g: Log, n: nat, bufSize: nat)
    requires Data(s, g, n, bufSize) && Directions(s.u, g, n)
    requires |s.k.sendCq| > 0 && SendCallable(s.u, s.k.sendCq[0].cqe) && s.k.sendCq[0].cqe.res > 0
    requires g.acked + s.k.sendCq[0].count <= g.sent
    ensures var p := s.k.sendCq[0];
            var w := SendWalk(s.u.outBr.bufs, s.u.inBr, p.cqe.bid, p.cqe.res, 0, s.u.cd1.outBytes, bufSize);
            w == Walk(s.u.inBr, (g.acked + p.count) % n, p.count, (s.u.cd1.outBytes + p.cqe.res) % U64)
  {
    hide MemOk, PacketsOk, RecvQueue, Covers, Cat, Span;
    var p := s.k.sendCq[0];
    SendWalkRecycles(s.u.outBr.bufs, s.u.inBr, p.cqe.bid, 0, s.u.cd1.outBytes,
                     g.packets, g.acked, g.acked + p.count, bufSize);
  }

  lemma AckCounts(outBytes: int, p: Posted, g: Log, n: nat)
    requires n > 0 && SendEntry(p, g.acked, g.packets, n)
    requires outBytes == Span(g.packets, 0, g.acked) % U64
    ensures (outBytes + p.cqe.res) % U64 == Span(g.packets, 0, g.acked + p.count) % U64
    ensures ((g.acked + n) % U16 + p.count) % U16 == (g.acked + p.count + n) % U16
  {
    SpanSplit(g.packets, 0, g.acked, g.acked + p.count);
    ModAdd(Span(g.packets, 0, g.acked), p.cqe.res, U64);
    ModAdd(g.acked + n, p.count, U16);
  }

  /** The handler's state after a send completion: its buffers are back in the receive ring. */
  lemma RecycleMovesPackets(s: State, g: Log, n: nat, bufSize: nat)
    requires Data(s, g, n, bufSize) && Directions(s.u, g, n)
    requires |s.k.sendCq| > 0 && SendCallable(s.u, s.k.sendCq[0].cqe) && s.k.sendCq[0].cqe.res > 0
    requires g.acked + s.k.sendCq[0].count <= g.sent
    ensures var p := s.k.sendCq[0];
            var total := Span(g.packets, 0, g.acked + p.count) % U64;
            var u1 := s.u.(inBr := s.u.inBr.(tail := (g.acked + p.count + n) % U16),
                           cd1 := s.u.cd1.(outBytes := total, sndNextBid := (g.acked + p.count) % n));
            var u2 := CloseIfPending(u1);
            Recycle(s.u, p.cqe, bufSize) == u2.(cd1 := u2.cd1.(outBuffers := s.u.cd1.outBuffers - p.count))
  {
    hide InOk, OutOk, MemOk, PacketsOk, RecvQueue, Span;
    RecycleWalk(s, g, n, bufSize);
    AckCounts(s.u.cd1.outBytes, s.k.sendCq[0], g, n);
  }

  lemma AckKeepsData(s: State, s': State, g: Log, n: nat, bufSize: nat)
    requires Data(s, g, n, bufSize) && |s.k.sendCq| > 0 && g.acked + s.k.sendCq[0].count <= g.sent
    requires s'.k == PopSend(s.k) && s'.u.outBr == s.u.outBr
    requires s'.u.inBr == s.u.inBr.(tail := (g.acked + s.k.sendCq[0].count + n) % U16)
    ensures Data(s', g.(acked := g.acked + s.k.sendCq[0].count), n, bufSize)
  {
  }

  lemma PopSendRequest(s: State, g: Log)
    requires Requests(s, g) && |s.k.sendCq| > 0
    ensures s.k.sendCq[0].cqe.more ==> Requests(State(s.u, PopSend(s.k)), g) && s.u.cd1.pendingSend
    ensures !s.k.sendCq[0].cqe.more ==>
      |s.k.sendCq| == 1 && Requests(State(s.u.(cd1 := s.u.cd1.(pendingSend := false)), PopSend(s.k)), g)
  {
    LifeTake(s.u.cd1.pendingSend, |s.u.sq| - Recvs(s.u.sq), s.k.sendArmed, s.k.sendCq);
  }

  lemma LastSendCompletes(q: seq<Posted>, start: nat, end: nat, packets: seq<seq<Byte>>, n: nat)
    requires n > 0 && |q| == 1 && SendQueue(q, start, end, packets, n)
    ensures start + q[0].count == end
  {
    assert |q[1..]| == 0;
  }

  /** The end of a send request leaves a send or a receive pending. */
  lemma SendDoneRequests(u: User, k: Kernel, g: Log)
    requires Requests(State(u.(cd1 := u.cd1.(pendingSend := false)), k), g)
    requires g.acked == g.sent <= g.queued && u.cd1.outBuffers == g.queued - g.acked
    ensures var r := SendDone(u);
            && r.outcome == Handled && Requests(State(r.user, k), g)
            && (r.user.cd1.pendingSend || (r.user.cd0.pendingRecv && r.user.cd1.outBuffers == 0))
            && r.user == u.(sq := r.user.sq, closing := r.user.closing,
                            cd0 := u.cd0.(pendingRecv := r.user.cd0.pendingRecv),
                            cd1 := u.cd1.(pendingSend := r.user.cd1.pendingSend,
                                          pendingShutdown := u.cd1.pendingShutdown || u.cd0.pendingShutdown))
  {
    var u1 := u.(cd1 := u.cd1.(pendingSend := false));
    if WillSend(u1.cd1) {
      PrepKeepsRequests(State(u1, k), g);
    } else if !u1.cd0.pendingRecv {
      SubmitKeepsRequests(State(u1, k), g);
    }
  }

  /** Past its checks, handle_send is the recycling followed by the end of the request. */
  lemma HandleSendIsRecycle(s: State, g: Log, n: nat, bufSize: nat)
    requires Inv(s, g, n, bufSize) && |s.k.sendCq| > 0
    ensures SendCallable(s.u, s.k.sendCq[0].cqe) && s.k.sendCq[0].cqe.res > 0 && s.k.sendCq[0].cqe.hasBuf
    ensures var p := s.k.sendCq[0];
            var u := Recycle(s.u, p.cqe, bufSize);
            && g.acked + p.count <= g.sent && p.count > 0
            && u.cd1.outBuffers == s.u.cd1.outBuffers - p.count
            && HandleSend(s.u, p.cqe, bufSize) == if p.cqe.more then Reply(u, Handled) else SendDone(u)
  {
    hide InOk, OutOk, MemOk, PacketsOk, RecvQueue, SendWalk, Span, Covers, AllPositive, Recvs, Life, Recycle, SendDone;
    SendIsCallable(s, g, n, bufSize);
    RecycleMovesPackets(s, g, n, bufSize);
  }

  lemma HandleSendReply(s: State, g: Log, n: nat, bufSize: nat)
    requires Inv(s, g, n, bufSize) && |s.k.sendCq| > 0
    ensures SendCallable(s.u, s.k.sendCq[0].cqe)
    ensures var p := s.k.sendCq[0];
            var g' := g.(acked := g.acked + p.count);
            var r := HandleSend(s.u, p.cqe, bufSize);
            && g'.acked <= g'.sent && r.outcome == Handled
            && Requests(State(r.user, PopSend(s.k)), g') && Moving(r.user)
            && r.user == s.u.(
                 sq := r.user.sq, closing := r.user.closing,
                 inBr := s.u.inBr.(tail := (g'.acked + n) % U16),
                 cd0 := s.u.cd0.(pendingRecv := r.user.cd0.pendingRecv),
                 cd1 := s.u.cd1.(pendingSend := r.user.cd1.pendingSend,
                                 pendingShutdown := s.u.cd1.pendingShutdown || s.u.cd0.pendingShutdown,
                                 outBytes := Span(g.packets, 0, g'.acked) % U64,
                                 sndNextBid := g'.acked % n, outBuffers := s.u.cd1.outBuffers - p.count))
  {
    hide InOk, OutOk, MemOk, PacketsOk, RecvQueue, SendQueue, Span, Covers, AllPositive, Recvs, Life, Recycle, SendDone,
         HandleSend;
    var p := s.k.sendCq[0];
    HandleSendIsRecycle(s, g, n, bufSize);
    RecycleMovesPackets(s, g, n, bufSize);
    PopSendRequest(s, g);
    if !p.cqe.more {
      LastSendCompletes(s.k.sendCq, g.acked, g.sent, g.packets, n);
      SendDoneRequests(Recycle(s.u, p.cqe, bufSize), PopSend(s.k), g.(acked := g.acked + p.count));
    }
  }

  /** Every send completion is handled without a failure, a mismatch or a broken assertion. */
  lemma HandleSendKeeps(s: State, g: Log, n: nat, bufSize: nat) returns (g': Log)
    requires Inv(s, g, n, bufSize) && |s.k.sendCq| > 0
    ensures SendCallable(s.u, s.k.sendCq[0].cqe)
    ensures var r := HandleSend(s.u, s.k.sendCq[0].cqe, bufSize);
            r.outcome == Handled && Inv(State(r.user, PopSend(s.k)), g', n, bufSize)
  {
    hide Queued, Stored, InOk, PacketsOk, Span, Cat, Life, Recvs;
    var p := s.k.sendCq[0];
    g' := g.(acked := g.acked + p.count);
    HandleSendReply(s, g, n, bufSize);
    AckKeepsData(s, State(HandleSend(s.u, p.cqe, bufSize).user, PopSend(s.k)), g, n, bufSize);
  }
}
