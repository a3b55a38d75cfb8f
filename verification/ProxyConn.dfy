// The completion handlers of examples/proxy.c as they run: one connection,
// its two rings updated in place.
module ProxyConn {
  import opened Arith
  import opened ProxyModel

  class Conn {
    const inBufs: array<Buf>
    const outBufs: array<Buf>
    const bufSize: int
    var inTail: int
    var outTail: int
    var cd0: ConnDir
    var cd1: ConnDir
    var sq: seq<Request>
    var closing: bool

    ghost predicate Valid() {
      inBufs != outBufs && inBufs.Length == outBufs.Length > 0
    }

    ghost function View(): User
      reads this, inBufs, outBufs
    {
      User(BufRing(inBufs[..], inTail), BufRing(outBufs[..], outTail), cd0, cd1, sq, closing)
    }

    /** setup_recv_ring and setup_send_ring: every buffer is handed to the kernel, nothing is queued. */
    constructor (nrBufs: nat, bufSize: int)
      requires 0 < nrBufs
      ensures Valid() && fresh(inBufs) && fresh(outBufs)
      ensures inBufs.Length == nrBufs && this.bufSize == bufSize
      ensures View() == NewUser(nrBufs, bufSize)
    {
      var ins := new Buf[nrBufs](_ => Buf(0, 0, 0));
      var outs := new Buf[nrBufs](_ => Buf(0, 0, 0));
      inBufs, outBufs, this.bufSize := ins, outs, bufSize;
      inTail, outTail, cd0, cd1, sq, closing := 0, 0, NewDir(), NewDir(), [], false;
      new;
      var addr := 0;
      for i := 0 to nrBufs
        invariant addr == i * bufSize && inTail == 0
        invariant forall j :: 0 <= j < i ==> ins[j] == Buf(j * bufSize, bufSize, j)
        invariant forall j :: 0 <= j < nrBufs ==> outs[j] == Buf(0, 0, 0)
        invariant outTail == 0 && cd0 == cd1 == NewDir() && sq == [] && !closing
      {
        ModSmall(i, nrBufs);
        AddIn(addr, bufSize, i, i);
        addr := addr + bufSize;
      }
      AdvanceIn(nrBufs);
      assert inBufs[..] == seq(nrBufs, i requires 0 <= i < nrBufs => Buf(i * bufSize, bufSize, i));
      assert outBufs[..] == seq(nrBufs, i => Buf(0, 0, 0));
    }

    /** io_uring_buf_ring_add on the receive ring. */
    method AddIn(addr: int, len: int, bid: int, offset: int)
      requires Valid()
      modifies inBufs
      ensures View() == old(View()).(inBr := Add(old(View()).inBr, addr, len, bid, offset))
    {
      inBufs[(inTail + offset) % inBufs.Length] := Buf(addr, len, bid);
    }

    /** io_uring_buf_ring_add on the outgoing ring. */
    method AddOut(addr: int, len: int, bid: int, offset: int)
      requires Valid()
      modifies outBufs
      ensures View() == old(View()).(outBr := Add(old(View()).outBr, addr, len, bid, offset))
    {
      outBufs[(outTail + offset) % outBufs.Length] := Buf(addr, len, bid);
    }

    method AdvanceIn(count: int)
      modifies this`inTail
      ensures View() == old(View()).(inBr := Advance(old(View()).inBr, count))
    {
      inTail := (inTail + count) % U16;
    }

    method AdvanceOut(count: int)
      modifies this`outTail
      ensures View() == old(View()).(outBr := Advance(old(View()).outBr, count))
    {
      outTail := (outTail + count) % U16;
    }

    /** recv_bids: queue the received bytes, buffer by buffer, from `bid` on. */
    method RecvBids(bid: int, inBytes: nat) returns (next: int, nrPackets: nat)
      requires Valid() && 0 <= bid < inBufs.Length && AllPositive(inBufs[..])
      modifies this`outTail, outBufs
      ensures var v := old(View());
              var w := RecvWalk(v.inBr.bufs, v.outBr, bid, inBytes, 0);
              next == w.bid && nrPackets == w.count && View() == v.(outBr := Advance(w.ring, w.count))
    {
      next, nrPackets := bid, 0;
      var left := inBytes;
      while left != 0
        invariant 0 <= next < inBufs.Length && left >= 0
        invariant View() == old(View()).(outBr := View().outBr)
        invariant RecvWalk(View().inBr.bufs, View().outBr, next, left, nrPackets)
               == RecvWalk(old(View()).inBr.bufs, old(View()).outBr, bid, inBytes, 0)
      {
        var buf := inBufs[next];
        var thisBytes := buf.len;
        if thisBytes > left {
          thisBytes := left;
        }
        left := left - thisBytes;
        AddOut(buf.addr, thisBytes, next, nrPackets);
        next := (next + 1) % inBufs.Length;
        nrPackets := nrPackets + 1;
      }
      AdvanceOut(nrPackets);
    }

    /** One step of handle_send_ring: buffer `bid` goes back to the receive ring. */
    method ReturnOne(bid: int, bytes: nat, offset: nat) returns (next: int, left: nat)
      requires Valid() && 0 <= bid < inBufs.Length && bytes > 0 && Covers(outBufs[..], bid, bytes)
      modifies this`cd1, inBufs
      ensures 0 <= next < inBufs.Length && left < bytes && Covers(outBufs[..], next, left)
      ensures View() == old(View()).(inBr := View().inBr, cd1 := old(cd1).(outBytes := cd1.outBytes))
      ensures SendWalk(View().outBr.bufs, View().inBr, next, left, offset + 1, cd1.outBytes, bufSize)
           == SendWalk(old(View()).outBr.bufs, old(View()).inBr, bid, bytes, offset, old(cd1).outBytes, bufSize)
    {
      var thisBytes := outBufs[bid].len;
      if thisBytes > bytes {
        thisBytes := bytes;
      }
      cd1 := cd1.(outBytes := (cd1.outBytes + thisBytes) % U64);
      AddIn(bid * bufSize, bufSize, bid, offset);
      next := (bid + 1) % inBufs.Length;
      left := bytes - thisBytes;
    }

    /** handle_send_ring: give the sent buffers back to the receive ring. */
    method HandleSendRing(bid: int, bytes: nat) returns (nrPackets: nat)
      requires Valid() && 0 <= bid < inBufs.Length && Covers(outBufs[..], bid, bytes)
      modifies this, inBufs
      ensures var v := old(View());
              var w := SendWalk(v.outBr.bufs, v.inBr, bid, bytes, 0, v.cd1.outBytes, bufSize);
              nrPackets == w.count && View() == CloseIfPending(
                v.(inBr := Advance(w.ring, w.count), cd1 := v.cd1.(outBytes := w.total, sndNextBid := w.bid)))
    {
      nrPackets := 0;
      var next, left := bid, bytes;
      while left != 0
        invariant 0 <= next < inBufs.Length && Covers(outBufs[..], next, left)
        invariant View() == old(View()).(inBr := View().inBr, cd1 := old(cd1).(outBytes := cd1.outBytes))
        invariant SendWalk(View().outBr.bufs, View().inBr, next, left, nrPackets, cd1.outBytes, bufSize)
               == SendWalk(old(View()).outBr.bufs, old(View()).inBr, bid, bytes, 0, old(cd1).outBytes, bufSize)
      {
        next, left := ReturnOne(next, left, nrPackets);
        nrPackets := nrPackets + 1;
      }
      cd1 := cd1.(sndNextBid := next);
      AdvanceIn(nrPackets);
      if cd0.pendingShutdown || cd1.pendingShutdown {
        CloseCdOut();
      }
    }

    method SubmitReceive() returns (outcome: Outcome)
      modifies this`cd0, this`sq
      ensures Reply(View(), outcome) == ProxyModel.SubmitReceive(old(View()))
    {
      if cd0.pendingRecv {
        return AssertFails;
      }
      cd0 := cd0.(pendingRecv := true);
      sq := sq + [RecvRequest];
      return Handled;
    }

    /** prep_next_send on the sending direction; true if a send completion is now expected. */
    method PrepNextSend() returns (expected: bool)
      modifies this`cd1, this`sq
      ensures View() == PrepNextSend1(old(View())) && expected == WillSend(old(cd1))
    {
      if cd1.pendingSend {
        return false;
      }
      if cd1.outBuffers == 0 {
        return false;
      }
      var bid := cd1.sndNextBid;
      if bid == -1 {
        bid := 0;
      }
      cd1 := cd1.(pendingSend := true);
      sq := sq + [SendRequest(bid)];
      return true;
    }

    /** prep_next_send as recv_enobufs calls it: on the receiving direction. */
    method PrepNextSendIn() returns (expected: bool)
      modifies this`cd0, this`sq
      ensures View() == PrepNextSend0(old(View())) && expected == WillSend(old(cd0))
    {
      if cd0.pendingSend {
        return false;
      }
      if cd0.outBuffers == 0 {
        return false;
      }
      var bid := cd0.sndNextBid;
      if bid == -1 {
        bid := 0;
      }
      cd0 := cd0.(pendingSend := true);
      sq := sq + [SendRequest(bid)];
      return true;
    }

    /** close_cd on the receiving direction. */
    method CloseCdIn()
      modifies this`cd0, this`closing
      ensures View() == CloseCd0(old(View()))
    {
      cd0 := cd0.(pendingShutdown := true);
      if cd0.pendingSend {
        return;
      }
      closing := true;
    }

    /** close_cd on the sending direction. */
    method CloseCdOut()
      modifies this`cd1, this`closing
      ensures View() == CloseCd1(old(View()))
    {
      cd1 := cd1.(pendingShutdown := true);
      if cd1.pendingSend {
        return;
      }
      closing := true;
    }

    method RecvError(res: int) returns (outcome: Outcome)
      modifies this`cd0, this`sq
      ensures Reply(View(), outcome) == ProxyModel.RecvError(old(View()), res)
    {
      cd0 := cd0.(pendingRecv := false);
      if res != ENOBUFS {
        return Fatal;
      }
      var doRecvArm := true;
      if !cd0.pendingSend {
        var expected := PrepNextSendIn();
        doRecvArm := !expected;
      }
      if doRecvArm {
        outcome := SubmitReceive();
      } else {
        outcome := Handled;
      }
    }

    method StartClose()
      modifies this
      ensures View() == ProxyModel.StartClose(old(View()))
    {
      var _ := PrepNextSend();
      CloseCdIn();
    }

    /** handle_recv with recv_error in front of it. */
    method HandleRecv(c: Cqe) returns (outcome: Outcome)
      requires Valid() && RecvCallable(View(), c)
      modifies this, outBufs
      ensures Reply(View(), outcome) == ProxyModel.HandleRecv(old(View()), c)
    {
      if c.res < 0 {
        outcome := RecvError(c.res);
        return;
      }
      if !c.hasBuf {
        cd0 := cd0.(pendingRecv := false);
        if c.res != 0 {
          return Fatal;
        }
        StartClose();
        return Handled;
      }
      if cd0.rcvNextBid != -1 && c.bid != cd0.rcvNextBid {
        StartClose();
        return Handled;
      }
      var next, nrPackets := RecvBids(c.bid, c.res);
      cd1 := cd1.(outBuffers := cd1.outBuffers + nrPackets);
      cd0 := cd0.(rcvNextBid := next);
      assert View() == Enqueue(old(View()), c);
      if cd1.outBuffers > inBufs.Length {
        return AssertFails;
      }
      outcome := FinishRecv(c);
    }

    /** The second half of __handle_recv, after the data is queued. */
    method FinishRecv(c: Cqe) returns (outcome: Outcome)
      requires Valid() && c.res >= 0
      modifies this
      ensures Reply(View(), outcome) == AfterEnqueue(old(View()), c)
    {
      if !c.more {
        cd0 := cd0.(pendingRecv := false);
        if c.res == 0 {
          StartClose();
          return Handled;
        }
        if !cd1.pendingSend {
          outcome := SubmitReceive();
          if outcome != Handled {
            return;
          }
        }
      }
      if (!cd1.pendingSend && cd1.outBuffers >= inBufs.Length / 2) || !c.more {
        var _ := PrepNextSend();
      }
      if c.res != 0 {
        cd0 := cd0.(inBytes := (cd0.inBytes + c.res) % U64);
      }
      return Handled;
    }

    /** handle_send with send_error in front of it. */
    method HandleSend(c: Cqe) returns (outcome: Outcome)
      requires Valid() && SendCallable(View(), c)
      modifies this, inBufs
      ensures Reply(View(), outcome) == ProxyModel.HandleSend(old(View()), c, bufSize)
    {
      if c.res < 0 {
        cd1 := cd1.(pendingSend := false);
        return if c.res != ENOBUFS then Fatal else Handled;
      }
      if !c.hasBuf {
        return Fatal;
      }
      if cd1.sndNextBid != -1 && c.bid != cd1.sndNextBid {
        if cd0.pendingShutdown || cd1.pendingShutdown {
          CloseCdOut();
        }
        return Handled;
      }
      var nrPackets := HandleSendRing(c.bid, c.res);
      cd1 := cd1.(outBuffers := cd1.outBuffers - nrPackets);
      assert View() == Recycle(old(View()), c, bufSize);
      if cd1.outBuffers < 0 {
        return AssertFails;
      }
      if c.more {
        return Handled;
      }
      outcome := FinishSend();
    }

    /** The tail of __handle_send for the last completion of a send request. */
    method FinishSend() returns (outcome: Outcome)
      modifies this
      ensures Reply(View(), outcome) == SendDone(old(View()))
    {
      cd1 := cd1.(pendingSend := false);
      var expected := PrepNextSend();
      if !expected && !cd0.pendingRecv {
        outcome := SubmitReceive();
        if outcome != Handled {
          return;
        }
      }
      if cd0.pendingShutdown || cd1.pendingShutdown {
        CloseCdOut();
      }
      return Handled;
    }
  }
}
