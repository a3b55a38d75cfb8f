// What handling one completion does to the proxy, in every reachable state:
// which requests are pending afterwards, which were issued, and every counter.
module ProxyHandlers {
  import opened Arith
  import opened Bytes
  import opened ProxyModel
  import opened ProxyMachine
  import opened ProxyInvariant
  import opened ProxySteps
  import opened ProxyTheorems

  /**
   * The requests a handler issued: first a receive, if one is pending anew, then a send, if one is
   * pending anew. The send names the buffer at the kernel's head of the outgoing ring.
   */
  ghost predicate Issues(u: User, u': User, outHead: int, recvAnew: bool, sendAnew: bool)
    requires Shape(u')
  {
    u'.sq == u.sq + (if recvAnew then [RecvRequest] else [])
                  + (if sendAnew then [SendRequest(Entry(u'.outBr, outHead).bid)] else [])
  }

  /**
   * Handling the oldest receive completion. The receive is pending afterwards exactly if the
   * request goes on, or it ended for want of buffers, or it ended with data and no send will see to
   * it. A send is pending exactly if one was, or the stream ended with buffers queued, or data came
   * and the request ended or half the ring is queued.
   */
  ghost predicate RecvEffect(s: State, u': User)
    requires |s.k.recvCq| > 0 && Shape(s.u) && Shape(u')
  {
    var u, p := s.u, s.k.recvCq[0];
    var c := p.cqe;
    && (u'.cd0.pendingRecv <==> c.more || c.res < 0 || (c.res > 0 && !u.cd1.pendingSend))
    && (u'.cd1.pendingSend <==>
          || u.cd1.pendingSend || (c.res == 0 && u'.cd1.outBuffers > 0)
          || (c.res > 0 && (!c.more || u'.cd1.outBuffers >= |u.inBr.bufs| / 2)))
    && Issues(u, u', s.k.outHead, !c.more && u'.cd0.pendingRecv, !u.cd1.pendingSend && u'.cd1.pendingSend)
    && u'.cd1.outBuffers == u.cd1.outBuffers + p.count
    && u'.cd0.inBytes == (u.cd0.inBytes + if c.res > 0 then c.res else 0) % U64
    && (u'.cd0.pendingShutdown <==> u.cd0.pendingShutdown || c.res == 0)
    && (u'.closing <==> u.closing || c.res == 0)
    && u'.inBr == u.inBr && u'.cd1 == u.cd1.(outBuffers := u'.cd1.outBuffers, pendingSend := u'.cd1.pendingSend)
  }

  /**
   * Handling the oldest send completion. A send is pending afterwards exactly if the request goes on
   * or buffers are queued; the receive exactly if it was, or the request ended with nothing queued.
   */
  ghost predicate SendEffect(s: State, u': User)
    requires |s.k.sendCq| > 0 && Shape(s.u) && Shape(u')
  {
    var u, p := s.u, s.k.sendCq[0];
    var c := p.cqe;
    && (u'.cd1.pendingSend <==> c.more || u'.cd1.outBuffers > 0)
    && (u'.cd0.pendingRecv <==> u.cd0.pendingRecv || (!c.more && u'.cd1.outBuffers == 0))
    && Issues(u, u', s.k.outHead, !u.cd0.pendingRecv && u'.cd0.pendingRecv, !c.more && u'.cd1.pendingSend)
    && u'.cd1.outBuffers == u.cd1.outBuffers - p.count
    && u'.cd1.outBytes == (u.cd1.outBytes + c.res) % U64
    && (u'.cd1.pendingShutdown <==> u.cd1.pendingShutdown || u.cd0.pendingShutdown)
    && (u'.closing <==> u.closing || (u.cd0.pendingShutdown && !u'.cd1.pendingSend))
    && u'.outBr == u.outBr && u'.cd0 == u.cd0.(pendingRecv := u'.cd0.pendingRecv)
  }

  // ---------- completions that are not accepted ----------

  /** No ring, no queued buffer and no byte counter changed. */
  ghost predicate Untouched(u: User, u': User) {
    && u'.inBr == u.inBr && u'.outBr == u.outBr
    && u'.cd0.outBuffers == u.cd0.outBuffers && u'.cd1.outBuffers == u.cd1.outBuffers
    && u'.cd0.inBytes == u.cd0.inBytes && u'.cd1.outBytes == u.cd1.outBytes
    && u'.cd0.rcvNextBid == u.cd0.rcvNextBid && u'.cd1.sndNextBid == u.cd1.sndNextBid
  }

  /**
   * A receive fails the handler exactly on an error other than -ENOBUFS or on data without a
   * buffer, and then it is no longer pending. One from another buffer than the next starts to close
   * the connection, after a send of what is queued. One that found no buffer issues one request: a
   * send if the receiving direction has something of its own to send, else the receive again. None
   * of these touches a ring or a counter.
   */
  lemma RejectedReceive(u: User, c: Cqe)
    requires RecvCallable(u, c)
    ensures HandleRecv(u, c).outcome == Fatal <==> (c.res < 0 && c.res != ENOBUFS) || (c.res > 0 && !c.hasBuf)
    ensures HandleRecv(u, c).outcome == Fatal ==>
              Untouched(u, HandleRecv(u, c).user) && HandleRecv(u, c).user == u.(cd0 := u.cd0.(pendingRecv := false))
    ensures c.res >= 0 && c.hasBuf && u.cd0.rcvNextBid != -1 && c.bid != u.cd0.rcvNextBid ==>
              var (u', done) := (HandleRecv(u, c).user, HandleRecv(u, c).outcome);
              && done == Handled && Untouched(u, u') && u'.cd0 == u.cd0.(pendingShutdown := true)
              && (u'.cd1.pendingSend <==> u.cd1.pendingSend || u.cd1.outBuffers != 0)
              && |u'.sq| == |u.sq| + (if u'.cd1.pendingSend && !u.cd1.pendingSend then 1 else 0) && u.sq <= u'.sq
              && (u'.closing <==> u.closing || !u.cd0.pendingSend)
    ensures c.res == ENOBUFS ==>
              var (u', done) := (HandleRecv(u, c).user, HandleRecv(u, c).outcome);
              && done == Handled && Untouched(u, u') && u'.cd1 == u.cd1 && u'.closing == u.closing
              && |u'.sq| == |u.sq| + 1 && u.sq <= u'.sq
              && (u'.cd0.pendingRecv <==> u.cd0.pendingSend || u.cd0.outBuffers == 0)
              && (u'.sq[|u.sq|].RecvRequest? <==> u'.cd0.pendingRecv)
              && (u'.cd0.pendingSend <==> u.cd0.pendingSend || u.cd0.outBuffers != 0)
  {
  }

  /**
   * A send fails the handler exactly on an error other than -ENOBUFS or without a buffer; after an
   * error it is no longer pending. One from another buffer than the next only goes on with a close
   * that was begun. None of them touches a ring or a counter or issues a request.
   */
  lemma RejectedSend(u: User, c: Cqe, bufSize: int)
    requires SendCallable(u, c)
    ensures HandleSend(u, c, bufSize).outcome == Fatal <==> (c.res < 0 && c.res != ENOBUFS) || (c.res >= 0 && !c.hasBuf)
    ensures c.res < 0 || !c.hasBuf || (u.cd1.sndNextBid != -1 && c.bid != u.cd1.sndNextBid) ==>
              var u' := HandleSend(u, c, bufSize).user;
              && Untouched(u, u') && u'.sq == u.sq && u'.cd0 == u.cd0
              && (u'.cd1.pendingSend <==> u.cd1.pendingSend && c.res >= 0)
              && (u'.closing <==> u.closing || (c.res >= 0 && c.hasBuf && PendingShutdown(u) && !u.cd1.pendingSend))
  {
  }

  // ---------- the bid of the next send ----------

  /** With no send under way, snd_next_bid names the buffer at the kernel's head. */
  lemma SendBidIsHead(outBr: BufRing, outHead: int, d: ConnDir, g: Log, n: nat, bufSize: nat)
    requires |outBr.bufs| == n > 0 && U16 % n == 0 && outHead == g.sent % U16
    requires OutOk(outBr.bufs, g.packets, g.acked, g.queued, bufSize) && g.acked == g.sent < g.queued
    requires d.sndNextBid == if g.acked == 0 then -1 else g.acked % n
    ensures SendBid(d) == Entry(outBr, outHead).bid
  {
    ModMod(g.sent, U16, n);
    assert Queued(outBr.bufs, g.sent, |g.packets[g.sent]|, bufSize);
  }

  // ---------- receive completions ----------

  /** -ENOBUFS: the receive is submitted again at once, whatever is being sent. */
  lemma NoBufsEffect(s: State, g: Log, n: nat, bufSize: nat)
    requires Inv(s, g, n, bufSize) && |s.k.recvCq| > 0 && s.k.recvCq[0].cqe.res < 0
    ensures Shape(HandleRecv(s.u, s.k.recvCq[0].cqe).user)
    ensures RecvEffect(s, HandleRecv(s.u, s.k.recvCq[0].cqe).user)
  {
    hide InOk, OutOk, MemOk, PacketsOk, SendQueue, Span, Cat, Life, Recvs, HandleRecv;
    HandleNoBufsKeeps(s, g, n, bufSize);
    ModMod(Span(g.packets, 0, g.queued), U64, U64);
  }

  lemma StartCloseEffect(u: User)
    requires !u.cd0.pendingSend
    ensures StartClose(u) == u.(
              cd0 := u.cd0.(pendingShutdown := true), closing := true,
              cd1 := u.cd1.(pendingSend := u.cd1.pendingSend || u.cd1.outBuffers != 0),
              sq := u.sq + if WillSend(u.cd1) then [SendRequest(SendBid(u.cd1))] else [])
  {
  }

  lemma EofEffect(s: State, g: Log, n: nat, bufSize: nat)
    requires Inv(s, g, n, bufSize) && |s.k.recvCq| > 0 && s.k.recvCq[0].cqe.res == 0
    ensures RecvCallable(s.u, s.k.recvCq[0].cqe) && Shape(HandleRecv(s.u, s.k.recvCq[0].cqe).user)
    ensures RecvEffect(s, HandleRecv(s.u, s.k.recvCq[0].cqe).user)
  {
    hide InOk, MemOk, PacketsOk, SendQueue, Span, Cat, Recvs, Life, StartClose, HandleRecv, AllPositive, OutOk;
    var c := s.k.recvCq[0].cqe;
    RecvIsCallable(s, g, n, bufSize);
    NoDataAtEnd(s, g, n, bufSize);
    HandleEofUser(s.u, c);
    var u1 := s.u.(cd0 := s.u.cd0.(pendingRecv := false,
                                   rcvNextBid := if c.hasBuf then c.bid else s.u.cd0.rcvNextBid));
    StartCloseEffect(u1);
    ModMod(Span(g.packets, 0, g.queued), U64, U64);
    if !s.u.cd1.pendingSend {
      IdleSendIsDrained(s, g, n, bufSize);
      if s.u.cd1.outBuffers > 0 {
        SendBidIsHead(s.u.outBr, s.k.outHead, s.u.cd1, g, n, bufSize);
      }
    }
  }

  /** What follows the enqueueing of data, said of the flags and the requests. */
  lemma AfterEnqueueEffect(u: User, c: Cqe)
    requires Shape(u) && c.res > 0 && u.cd1.outBuffers > 0 && AfterEnqueue(u, c).outcome == Handled
    ensures var u' := AfterEnqueue(u, c).user;
            var recvAnew := !c.more && !u.cd1.pendingSend;
            var sendAnew := !u.cd1.pendingSend && (!c.more || u.cd1.outBuffers >= |u.inBr.bufs| / 2);
            u' == u.(sq := u.sq + (if recvAnew then [RecvRequest] else [])
                                + (if sendAnew then [SendRequest(SendBid(u.cd1))] else []),
                     cd0 := u.cd0.(pendingRecv := if c.more then u.cd0.pendingRecv else recvAnew,
                                   inBytes := (u.cd0.inBytes + c.res) % U64),
                     cd1 := u.cd1.(pendingSend := u.cd1.pendingSend || sendAnew))
  {
  }

  lemma DataEffect(s: State, g: Log, n: nat, bufSize: nat)
    requires Inv(s, g, n, bufSize) && |s.k.recvCq| > 0 && s.k.recvCq[0].cqe.res > 0
    ensures RecvCallable(s.u, s.k.recvCq[0].cqe) && Shape(HandleRecv(s.u, s.k.recvCq[0].cqe).user)
    ensures RecvEffect(s, HandleRecv(s.u, s.k.recvCq[0].cqe).user)
  {
    hide InOk, MemOk, SendQueue, AllPositive, Recvs, Life, Streams, HandleRecv, AfterEnqueue, Enqueue, Span, Cat, OutOk;
    var p := s.k.recvCq[0];
    var g' := g.(queued := g.queued + p.count);
    RecvIsCallable(s, g, n, bufSize);
    BytesMeanPackets(p, g.queued, g.packets, n, bufSize);
    HandleDataIsEnqueue(s, g, n, bufSize);
    HandleDataReply(s, g, n, bufSize);
    AfterEnqueueEffect(Enqueue(s.u, p.cqe), p.cqe);
    if p.cqe.more {
      PopMoreRecv(s, g);
    }
    if !s.u.cd1.pendingSend {
      IdleSendIsDrained(s, g, n, bufSize);
      SendBidIsHead(Enqueue(s.u, p.cqe).outBr, s.k.outHead, s.u.cd1, g', n, bufSize);
    }
  }

  lemma InvRecvEffect(s: State, g: Log, n: nat, bufSize: nat)
    requires Inv(s, g, n, bufSize) && |s.k.recvCq| > 0
    ensures RecvCallable(s.u, s.k.recvCq[0].cqe) && Shape(HandleRecv(s.u, s.k.recvCq[0].cqe).user)
    ensures RecvEffect(s, HandleRecv(s.u, s.k.recvCq[0].cqe).user)
  {
    if s.k.recvCq[0].cqe.res < 0 {
      NoBufsEffect(s, g, n, bufSize);
    } else if s.k.recvCq[0].cqe.res == 0 {
      EofEffect(s, g, n, bufSize);
    } else {
      DataEffect(s, g, n, bufSize);
    }
  }

  // ---------- send completions ----------

  /** The end of a send request, said of the flags and the requests. */
  lemma SendDoneEffect(u: User)
    ensures var r := SendDone(u);
            var u' := r.user;
            var sendAnew := u.cd1.outBuffers != 0;
            var recvAnew := !sendAnew && !u.cd0.pendingRecv;
            && r.outcome == Handled
            && u'.sq == u.sq + (if recvAnew then [RecvRequest] else [])
                             + (if sendAnew then [SendRequest(SendBid(u.cd1))] else [])
            && u'.cd0 == u.cd0.(pendingRecv := u.cd0.pendingRecv || recvAnew)
            && u'.cd1 == u.cd1.(pendingSend := sendAnew, pendingShutdown := PendingShutdown(u))
            && u'.inBr == u.inBr && u'.outBr == u.outBr
            && u'.closing == (u.closing || (PendingShutdown(u) && !sendAnew))
  {
  }

  /** The user once the sent buffers are back: the send is still pending, so no close begins here. */
  lemma RecycleEffect(s: State, g: Log, n: nat, bufSize: nat)
    requires Inv(s, g, n, bufSize) && |s.k.sendCq| > 0
    ensures SendCallable(s.u, s.k.sendCq[0].cqe) && s.k.sendCq[0].cqe.res > 0 && s.k.sendCq[0].cqe.hasBuf
    ensures var p, u := s.k.sendCq[0], Recycle(s.u, s.k.sendCq[0].cqe, bufSize);
            var acked := g.acked + p.count;
            && acked > 0 && |u.inBr.bufs| == n
            && u == s.u.(inBr := u.inBr,
                         cd1 := s.u.cd1.(outBytes := (s.u.cd1.outBytes + p.cqe.res) % U64, sndNextBid := acked % n,
                                         outBuffers := s.u.cd1.outBuffers - p.count,
                                         pendingShutdown := s.u.cd1.pendingShutdown || s.u.cd0.pendingShutdown))
            && HandleSend(s.u, p.cqe, bufSize) == if p.cqe.more then Reply(u, Handled) else SendDone(u)
    ensures !s.k.sendCq[0].cqe.more ==> g.acked + s.k.sendCq[0].count == g.sent
  {
    hide InOk, OutOk, MemOk, PacketsOk, RecvQueue, SendQueue, Span, Covers, AllPositive, Recvs, Life, Recycle, SendDone,
         HandleSend, Cat;
    var p := s.k.sendCq[0];
    HandleSendIsRecycle(s, g, n, bufSize);
    RecycleMovesPackets(s, g, n, bufSize);
    FirstSendEntry(s.k.sendCq, g.acked, g.sent, g.packets, n);
    AckCounts(s.u.cd1.outBytes, p, g, n);
    PopSendRequest(s, g);
    PendingWhileQueued(s, g);
    if !p.cqe.more {
      LastSendCompletes(s.k.sendCq, g.acked, g.sent, g.packets, n);
    }
  }

  lemma FirstSendEntry(q: seq<Posted>, start: nat, end: nat, packets: seq<seq<Byte>>, n: nat)
    requires n > 0 && |q| > 0 && SendQueue(q, start, end, packets, n)
    ensures SendEntry(q[0], start, packets, n)
  {
  }

  /** While a send completion waits, the send is pending. */
  lemma PendingWhileQueued(s: State, g: Log)
    requires Requests(s, g) && |s.k.sendCq| > 0
    ensures s.u.cd1.pendingSend
  {
  }

  /** A send's buffers returned, and nothing else done yet. */
  ghost predicate Returned(s: State, u: User)
    requires |s.k.sendCq| > 0
  {
    var p := s.k.sendCq[0];
    && u.cd1.outBuffers == s.u.cd1.outBuffers - p.count >= 0 && s.u.cd1.pendingSend && Shape(s.u) && Shape(u)
    && (s.u.cd1.pendingShutdown ==> s.u.cd0.pendingShutdown)
    && u == s.u.(inBr := u.inBr,
                 cd1 := s.u.cd1.(outBytes := (s.u.cd1.outBytes + p.cqe.res) % U64, sndNextBid := u.cd1.sndNextBid,
                                 outBuffers := u.cd1.outBuffers,
                                 pendingShutdown := s.u.cd1.pendingShutdown || s.u.cd0.pendingShutdown))
  }

  lemma MoreSendEffect(s: State, u: User)
    requires |s.k.sendCq| > 0 && s.k.sendCq[0].cqe.more && Returned(s, u)
    ensures SendEffect(s, u)
  {
  }

  lemma LastSendEffect(s: State, u: User)
    requires |s.k.sendCq| > 0 && !s.k.sendCq[0].cqe.more && Returned(s, u)
    requires u.cd1.outBuffers > 0 ==> SendBid(u.cd1) == Entry(u.outBr, s.k.outHead).bid
    ensures Shape(SendDone(u).user) && SendEffect(s, SendDone(u).user)
  {
    hide SendDone, Entry;
    SendDoneEffect(u);
  }

  lemma InvSendEffect(s: State, g: Log, n: nat, bufSize: nat)
    requires Inv(s, g, n, bufSize) && |s.k.sendCq| > 0
    ensures SendCallable(s.u, s.k.sendCq[0].cqe) && Shape(HandleSend(s.u, s.k.sendCq[0].cqe, bufSize).user)
    ensures SendEffect(s, HandleSend(s.u, s.k.sendCq[0].cqe, bufSize).user)
  {
    hide InOk, OutOk, MemOk, PacketsOk, RecvQueue, SendQueue, Span, Covers, AllPositive, Recvs, Life, Recycle, SendDone,
         HandleSend, Cat, SendEffect, Entry, SendBid;
    var p := s.k.sendCq[0];
    RecycleEffect(s, g, n, bufSize);
    var u := Recycle(s.u, p.cqe, bufSize);
    PendingWhileQueued(s, g);
    SendQueueOrdered(s.k.sendCq, g.acked, g.sent, g.packets, n);
    assert Returned(s, u);
    if p.cqe.more {
      MoreSendEffect(s, u);
    } else {
      if u.cd1.outBuffers > 0 {
        OutOkShrinks(s.u.outBr.bufs, g.packets, g.acked, g.acked + p.count, g.queued, bufSize);
        SendBidIsHead(u.outBr, s.k.outHead, u.cd1, g.(acked := g.acked + p.count), n, bufSize);
      }
      LastSendEffect(s, u);
    }
  }

  lemma OutOkShrinks(bufs: seq<Buf>, packets: seq<seq<Byte>>, start: nat, start': nat, end: nat, bufSize: nat)
    requires OutOk(bufs, packets, start, end, bufSize) && start <= start'
    ensures OutOk(bufs, packets, start', end, bufSize)
  {
  }

  // ---------- every reachable state ----------

  /**
   * In every reachable state, handling the next receive completion has exactly this effect. In
   * particular a receive that ended for want of buffers is submitted again at once, also while a
   * send is under way.
   */
  lemma ReceiveIsHandled(states: seq<State>, events: seq<Event>, n: nat, bufSize: nat, i: nat)
    requires Config(n, bufSize) && Run(states, events, n, bufSize) && i < |states| && |states[i].k.recvCq| > 0
    ensures RecvCallable(states[i].u, states[i].k.recvCq[0].cqe)
    ensures var u' := HandleRecv(states[i].u, states[i].k.recvCq[0].cqe).user;
            Shape(states[i].u) && Shape(u') && RecvEffect(states[i], u')
  {
    hide Inv, Run, HandleRecv, RecvEffect;
    var g := RunKeeps(states, events, n, bufSize, i);
    InvRecvEffect(states[i], g, n, bufSize);
  }

  /** In every reachable state, handling the next send completion has exactly this effect. */
  lemma SendIsHandled(states: seq<State>, events: seq<Event>, n: nat, bufSize: nat, i: nat)
    requires Config(n, bufSize) && Run(states, events, n, bufSize) && i < |states| && |states[i].k.sendCq| > 0
    ensures SendCallable(states[i].u, states[i].k.sendCq[0].cqe)
    ensures var u' := HandleSend(states[i].u, states[i].k.sendCq[0].cqe, bufSize).user;
            Shape(states[i].u) && Shape(u') && SendEffect(states[i], u')
  {
    hide Inv, Run, HandleSend, SendEffect;
    var g := RunKeeps(states, events, n, bufSize, i);
    InvSendEffect(states[i], g, n, bufSize);
  }
}
