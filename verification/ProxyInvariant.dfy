// What every reachable state of the proxy satisfies, stated against a log of
// the packets received so far. Packets are numbered from 0; packet i lives in
// buffer i % n for ever, which is why slot index and buffer id coincide.
module ProxyInvariant {
  import opened Arith
  import opened Bytes
  import opened ProxyModel
  import opened ProxyMachine

  /** All packets ever received; the first `acked` are back in the receive ring, `sent` of them
      are on the wire, `queued` of them have been put on the outgoing ring. */
  datatype Log = Log(packets: seq<seq<Byte>>, acked: nat, sent: nat, queued: nat)

  ghost predicate PacketsOk(packets: seq<seq<Byte>>, bufSize: nat) {
    forall i :: 0 <= i < |packets| ==> 0 < |packets[i]| <= bufSize
  }

  /** Slot s of the receive ring always describes buffer s, whole. */
  ghost predicate InOk(bufs: seq<Buf>, bufSize: nat) {
    forall s :: 0 <= s < |bufs| ==> bufs[s] == Buf(s * bufSize, bufSize, s)
  }

  /** Slot i % n of the outgoing ring describes packet i. */
  ghost predicate Queued(bufs: seq<Buf>, i: nat, len: nat, bufSize: nat)
    requires |bufs| > 0
  {
    bufs[i % |bufs|] == Buf((i % |bufs|) * bufSize, len, i % |bufs|)
  }

  /** Packets [start..end) sit in the outgoing ring, each in its own slot. */
  ghost predicate OutOk(bufs: seq<Buf>, packets: seq<seq<Byte>>, start: nat, end: nat, bufSize: nat) {
    && |bufs| > 0 && end <= |packets|
    && forall i :: start <= i < end ==> Queued(bufs, i, |packets[i]|, bufSize)
  }

  /** Buffer i % n of the memory holds packet i. */
  ghost predicate Stored(mem: seq<Byte>, i: nat, packet: seq<Byte>, n: nat, bufSize: nat)
    requires n > 0
  {
    Block(mem, (i % n) * bufSize, |packet|) == packet
  }

  /** The bytes of packets [start..) are intact in memory. */
  ghost predicate MemOk(mem: seq<Byte>, packets: seq<seq<Byte>>, start: nat, n: nat, bufSize: nat) {
    && n > 0 && |mem| == n * bufSize
    && forall i :: start <= i < |packets| ==> Stored(mem, i, packets[i], n, bufSize)
  }

  ghost predicate RecvEntry(p: Posted, start: nat, packets: seq<seq<Byte>>, n: nat, bufSize: nat)
    requires n > 0
  {
    && start + p.count <= |packets|
    && (p.count == 0 ==>
         !p.cqe.more && (p.cqe.res == ENOBUFS || (p.cqe.res == 0 && (p.cqe.hasBuf ==> p.cqe.bid == start % n))))
    && (p.count > 0 ==>
         && p.cqe.hasBuf && p.cqe.bid == start % n
         && p.cqe.res == Span(packets, start, start + p.count)
         && forall i :: start <= i < start + p.count - 1 ==> |packets[i]| == bufSize)
  }

  /** The unhandled receive completions account for packets [start..), in order. */
  ghost predicate RecvQueue(q: seq<Posted>, start: nat, packets: seq<seq<Byte>>, n: nat, bufSize: nat)
    requires n > 0
  {
    if |q| == 0 then start == |packets|
    else RecvEntry(q[0], start, packets, n, bufSize) && RecvQueue(q[1..], start + q[0].count, packets, n, bufSize)
  }

  ghost predicate SendEntry(p: Posted, start: nat, packets: seq<seq<Byte>>, n: nat)
    requires n > 0
  {
    && p.count > 0 && start + p.count <= |packets|
    && p.cqe.hasBuf && p.cqe.bid == start % n
    && p.cqe.res == Span(packets, start, start + p.count)
  }

  /** The unhandled send completions account for packets [start..end), in order. */
  ghost predicate SendQueue(q: seq<Posted>, start: nat, end: nat, packets: seq<seq<Byte>>, n: nat)
    requires n > 0
  {
    if |q| == 0 then start == end
    else SendEntry(q[0], start, packets, n) && SendQueue(q[1..], start + q[0].count, end, packets, n)
  }

  // ---------- rings and memory ----------

  /** A 16-bit base counter indexes the same slot as the unbounded one. */
  lemma SlotOf(base: int, j: int, n: nat)
    requires n > 0 && U16 % n == 0
    ensures (base % U16 + j) % n == (base + j) % n
  {
    ModMod(base, U16, n);
    ModAdd(base % U16, j, n);
    ModAdd(base, j, n);
  }

  lemma OutOkAdd(bufs: seq<Buf>, packets: seq<seq<Byte>>, start: nat, end: nat, bufSize: nat)
    requires OutOk(bufs, packets, start, end, bufSize)
    requires start <= end < |packets| && end - start < |bufs|
    ensures var s := end % |bufs|;
            OutOk(bufs[s := Buf(s * bufSize, |packets[end]|, s)], packets, start, end + 1, bufSize)
  {
    var s := end % |bufs|;
    var bufs' := bufs[s := Buf(s * bufSize, |packets[end]|, s)];
    forall i | start <= i < end + 1 ensures Queued(bufs', i, |packets[i]|, bufSize) {
      if i < end {
        assert Queued(bufs, i, |packets[i]|, bufSize);
        if i % |bufs| == s {
          ModInjective(i, end, |bufs|);
        }
      }
    }
  }

  /** One step of recv_bids takes exactly the next packet. */
  lemma NextLength(packets: seq<seq<Byte>>, i: nat, end: nat, bufSize: nat)
    requires PacketsOk(packets, bufSize) && i < end <= |packets|
    requires forall j :: i <= j < end - 1 ==> |packets[j]| == bufSize
    ensures Min(bufSize, Span(packets, i, end)) == |packets[i]|
    ensures Span(packets, i, end) == |packets[i]| + Span(packets, i + 1, end) > 0
  {
  }

  /** That step writes the packet's slot and moves on to the next buffer. */
  lemma QueueNext(
      inBufs: seq<Buf>, out: BufRing, bid: int, count: nat,
      packets: seq<seq<Byte>>, start: nat, i: nat, end: nat, bufSize: nat)
    requires |inBufs| == |out.bufs| > 0 && U16 % |inBufs| == 0
    requires InOk(inBufs, bufSize) && PacketsOk(packets, bufSize)
    requires start + count <= i < end <= |packets| && end - start <= |inBufs|
    requires forall j :: i <= j < end - 1 ==> |packets[j]| == bufSize
    requires OutOk(out.bufs, packets, start, i, bufSize)
    requires bid == i % |inBufs| && out.tail == (i - count) % U16
    ensures var out' := Add(out, inBufs[bid].addr, |packets[i]|, bid, count);
            && |out'.bufs| == |inBufs| && out'.tail == out.tail
            && OutOk(out'.bufs, packets, start, i + 1, bufSize) && (bid + 1) % |inBufs| == (i + 1) % |inBufs|
    ensures Min(inBufs[bid].len, Span(packets, i, end)) == |packets[i]|
    ensures Span(packets, i, end) == |packets[i]| + Span(packets, i + 1, end) > 0
  {
    hide OutOk, PacketsOk;
    NextLength(packets, i, end, bufSize);
    SlotOf(i - count, count, |inBufs|);
    ModAdd(i, 1, |inBufs|);
    OutOkAdd(out.bufs, packets, start, i, bufSize);
  }

  /** recv_bids queues the packets of the completion, each with its own length, in its own slot. */
  lemma {:induction false} RecvWalkQueues(
      inBufs: seq<Buf>, out: BufRing, bid: int, count: nat,
      packets: seq<seq<Byte>>, start: nat, i: nat, end: nat, bufSize: nat)
    requires |inBufs| == |out.bufs| > 0 && U16 % |inBufs| == 0 && bufSize > 0
    requires InOk(inBufs, bufSize) && AllPositive(inBufs) && PacketsOk(packets, bufSize)
    requires start + count <= i <= end <= |packets| && end - start <= |inBufs|
    requires forall j :: i <= j < end - 1 ==> |packets[j]| == bufSize
    requires OutOk(out.bufs, packets, start, i, bufSize)
    requires bid == i % |inBufs| && out.tail == (i - count) % U16
    ensures var w := RecvWalk(inBufs, out, bid, Span(packets, i, end), count);
            && w.count == count + (end - i) && w.bid == end % |inBufs|
            && OutOk(w.ring.bufs, packets, start, end, bufSize)
    decreases end - i
  {
    if i < end {
      hide OutOk, InOk, PacketsOk, Span, Add;
      QueueNext(inBufs, out, bid, count, packets, start, i, end, bufSize);
      var out' := Add(out, inBufs[bid].addr, |packets[i]|, bid, count);
      RecvWalkQueues(inBufs, out', (bid + 1) % |inBufs|, count + 1, packets, start, i + 1, end, bufSize);
    }
  }

  /** The outgoing entries cover the bytes of any run of queued packets. */
  lemma {:induction false} OutCovers(
      bufs: seq<Buf>, bid: int, packets: seq<seq<Byte>>, i: nat, end: nat, bufSize: nat)
    requires PacketsOk(packets, bufSize) && OutOk(bufs, packets, i, end, bufSize)
    requires i <= end && bid == i % |bufs|
    ensures Covers(bufs, bid, Span(packets, i, end))
    decreases end - i
  {
    if i < end {
      ModAdd(i, 1, |bufs|);
      OutCovers(bufs, (bid + 1) % |bufs|, packets, i + 1, end, bufSize);
    }
  }

  /** Giving buffer i % n back rewrites its slot with what the slot already holds. */
  lemma RecycleIsIdle(inBr: BufRing, count: nat, i: nat, bufSize: nat)
    requires |inBr.bufs| > 0 && U16 % |inBr.bufs| == 0 && InOk(inBr.bufs, bufSize)
    requires count <= i && inBr.tail == (i - count + |inBr.bufs|) % U16
    ensures var bid := i % |inBr.bufs|; Add(inBr, bid * bufSize, bufSize, bid, count) == inBr
  {
    SlotOf(i - count + |inBr.bufs|, count, |inBr.bufs|);
    ModAddMultiple(i, |inBr.bufs|);
  }

  /** handle_send_ring returns exactly the sent buffers; the receive ring's slots keep their contents. */
  lemma {:induction false} SendWalkRecycles(
      outBufs: seq<Buf>, inBr: BufRing, bid: int, count: nat, total: int,
      packets: seq<seq<Byte>>, i: nat, end: nat, bufSize: nat)
    requires |outBufs| == |inBr.bufs| && PacketsOk(packets, bufSize)
    requires OutOk(outBufs, packets, i, end, bufSize) && InOk(inBr.bufs, bufSize)
    requires U16 % |outBufs| == 0
    requires count <= i <= end && bid == i % |outBufs|
    requires inBr.tail == (i - count + |outBufs|) % U16
    requires Covers(outBufs, bid, Span(packets, i, end))
    requires 0 <= total < U64
    ensures SendWalk(outBufs, inBr, bid, Span(packets, i, end), count, total, bufSize)
         == Walk(inBr, end % |outBufs|, count + (end - i), (total + Span(packets, i, end)) % U64)
    decreases end - i
  {
    var n := |outBufs|;
    if i == end {
      ModSmall(total, U64);
    } else {
      RecycleIsIdle(inBr, count, i, bufSize);
      ModAdd(i, 1, n);
      var len, rest := |packets[i]|, Span(packets, i + 1, end);
      assert Span(packets, i, end) == len + rest;
      SendWalkRecycles(outBufs, inBr, (bid + 1) % n, count + 1, (total + len) % U64, packets, i + 1, end, bufSize);
      ModAdd(total + len, rest, U64);
    }
  }

  /** Storing the next packet leaves every packet that is still needed intact. */
  lemma MemOkAdd(mem: seq<Byte>, packets: seq<seq<Byte>>, start: nat, p: seq<Byte>, n: nat, bufSize: nat)
    requires MemOk(mem, packets, start, n, bufSize) && PacketsOk(packets, bufSize)
    requires |p| <= bufSize && start <= |packets| && |packets| - start < n
    ensures MemOk(Splice(mem, (|packets| % n) * bufSize, p), packets + [p], start, n, bufSize)
  {
    var k, all := |packets|, packets + [p];
    var mem' := Splice(mem, (k % n) * bufSize, p);
    SlotInMemory(k, n, bufSize);
    BlockOfSplice(mem, (k % n) * bufSize, p);
    forall i | start <= i < |all| ensures Stored(mem', i, all[i], n, bufSize) {
      if i < k {
        assert Stored(mem, i, packets[i], n, bufSize);
        if i % n == k % n {
          ModInjective(i, k, n);
        }
        SlotInMemory(i, n, bufSize);
        SlotsApart(i % n, k % n, bufSize);
        BlockElsewhere(mem, (k % n) * bufSize, p, (i % n) * bufSize, |packets[i]|);
      }
    }
  }

  lemma SlotInMemory(i: nat, n: nat, bufSize: nat)
    requires n > 0
    ensures 0 <= (i % n) * bufSize && (i % n) * bufSize + bufSize <= n * bufSize
  {
    Distribute(i % n, n - i % n, bufSize);
    MulAtLeastNat(n - i % n, bufSize);
  }

  lemma MulAtLeastNat(k: int, b: nat)
    requires k >= 1
    ensures k * b >= b
  {
  }

  lemma SlotsApart(a: nat, b: nat, bufSize: nat)
    requires a != b
    ensures a * bufSize + bufSize <= b * bufSize || b * bufSize + bufSize <= a * bufSize
  {
    Distribute(a, b - a, bufSize);
    Distribute(b, a - b, bufSize);
    if a < b {
      MulAtLeastNat(b - a, bufSize);
    } else {
      MulAtLeastNat(a - b, bufSize);
    }
  }

  lemma FitsRest(br: BufRing, head: int, chunks: seq<seq<Byte>>)
    requires |br.bufs| > 0 && |chunks| > 0 && Fits(br, head, chunks)
    ensures Fits(br, head + 1, chunks[1..]) && 0 < |chunks[0]| <= Entry(br, head).len
  {
    assert Entry(br, head + 0) == Entry(br, head);
    forall i | 0 <= i < |chunks[1..]|
      ensures var len := Entry(br, head + 1 + i).len;
              0 < |chunks[1..][i]| <= len && (i < |chunks[1..]| - 1 ==> |chunks[1..][i]| == len)
    {
      assert head + 1 + i == head + (i + 1) && chunks[1..][i] == chunks[i + 1];
    }
  }

  /** A whole receive, chunk after chunk. */
  lemma {:induction false} StoreKeepsMemory(
      mem: seq<Byte>, br: BufRing, head: int, chunks: seq<seq<Byte>>,
      packets: seq<seq<Byte>>, start: nat, bufSize: nat)
    requires |br.bufs| > 0 && InOk(br.bufs, bufSize)
    requires MemOk(mem, packets, start, |br.bufs|, bufSize) && PacketsOk(packets, bufSize)
    requires start <= |packets| && |packets| + |chunks| - start <= |br.bufs|
    requires head % |br.bufs| == |packets| % |br.bufs|
    requires Fits(br, head, chunks)
    ensures MemOk(Store(mem, br, head, chunks), packets + chunks, start, |br.bufs|, bufSize)
    ensures PacketsOk(packets + chunks, bufSize)
    decreases |chunks|
  {
    hide MemOk, Fits;
    if |chunks| == 0 {
      assert packets + chunks == packets;
    } else {
      var n, p := |br.bufs|, chunks[0];
      FitsRest(br, head, chunks);
      MemOkAdd(mem, packets, start, p, n, bufSize);
      NextSlot(head, |packets|, n);
      StoreKeepsMemory(Splice(mem, Entry(br, head).addr, p), br, head + 1, chunks[1..], packets + [p], start, bufSize);
      assert packets + [p] + chunks[1..] == packets + chunks;
    }
  }

  lemma NextSlot(a: int, b: int, n: nat)
    requires n > 0 && a % n == b % n
    ensures (a + 1) % n == (b + 1) % n
  {
    ModAdd(a, 1, n);
    ModAdd(b, 1, n);
  }

  /** The j-th entry from the head of the outgoing ring holds the j-th unsent packet. */
  lemma EntryIsPacket(
      mem: seq<Byte>, br: BufRing, head: int, packets: seq<seq<Byte>>, i: nat, j: nat, end: nat, bufSize: nat)
    requires |br.bufs| > 0 && i + j < end && U16 % |br.bufs| == 0 && head == i % U16
    requires OutOk(br.bufs, packets, i, end, bufSize) && MemOk(mem, packets, i, |br.bufs|, bufSize)
    ensures var e := Entry(br, head + j);
            e.len == |packets[i + j]| && Block(mem, e.addr, e.len) == packets[i + j]
  {
    SlotOf(i, j, |br.bufs|);
    assert Queued(br.bufs, i + j, |packets[i + j]|, bufSize);
    assert Stored(mem, i + j, packets[i + j], |br.bufs|, bufSize);
  }

  /** What a send reads from the outgoing ring is the packets themselves. */
  lemma {:induction false} GatherReadsPackets(
      mem: seq<Byte>, br: BufRing, head: int, packets: seq<seq<Byte>>,
      i: nat, count: nat, end: nat, bufSize: nat)
    requires |br.bufs| > 0 && i + count <= end
    requires OutOk(br.bufs, packets, i, end, bufSize) && MemOk(mem, packets, i, |br.bufs|, bufSize)
    requires U16 % |br.bufs| == 0 && head == i % U16
    ensures Gather(mem, br, head, count) == Cat(packets[i..i + count])
    decreases count
  {
    hide OutOk, MemOk, Cat;
    OutOkInRange(br.bufs, packets, i, end, bufSize);
    if count == 0 {
      EmptyCat(packets[i..i]);
    } else {
      GatherReadsPackets(mem, br, head, packets, i, count - 1, end, bufSize);
      EntryIsPacket(mem, br, head, packets, i, count - 1, end, bufSize);
      CatSnoc(packets, i, i + count);
    }
  }

  lemma EmptyCat(packets: seq<seq<Byte>>)
    requires |packets| == 0
    ensures Cat(packets) == []
  {
  }

  lemma OutOkInRange(bufs: seq<Buf>, packets: seq<seq<Byte>>, start: nat, end: nat, bufSize: nat)
    requires OutOk(bufs, packets, start, end, bufSize)
    ensures end <= |packets|
  {
  }

  // ---------- completion queues ----------

  /** New packets do not disturb the completions already queued. */
  lemma {:induction false} RecvQueueAppend(
      q: seq<Posted>, start: nat, packets: seq<seq<Byte>>, chunks: seq<seq<Byte>>, p: Posted, n: nat, bufSize: nat)
    requires n > 0 && RecvQueue(q, start, packets, n, bufSize)
    requires RecvEntry(p, |packets|, packets + chunks, n, bufSize) && p.count == |chunks|
    ensures RecvQueue(q + [p], start, packets + chunks, n, bufSize)
    decreases |q|
  {
    if |q| == 0 {
      assert (q + [p])[1..] == [];
    } else {
      RecvQueueAppend(q[1..], start + q[0].count, packets, chunks, p, n, bufSize);
      SpanPrefix(packets, chunks, start, start + q[0].count);
      assert (q + [p])[1..] == q[1..] + [p];
    }
  }

  lemma {:induction false} SendQueueAppend(
      q: seq<Posted>, start: nat, end: nat, packets: seq<seq<Byte>>, p: Posted, n: nat)
    requires n > 0 && SendQueue(q, start, end, packets, n) && SendEntry(p, end, packets, n)
    ensures SendQueue(q + [p], start, end + p.count, packets, n)
    decreases |q|
  {
    if |q| == 0 {
      assert (q + [p])[1..] == [];
    } else {
      SendQueueAppend(q[1..], start + q[0].count, end, packets, p, n);
      assert (q + [p])[1..] == q[1..] + [p];
    }
  }

  lemma {:induction false} SendQueueGrows(
      q: seq<Posted>, start: nat, end: nat, packets: seq<seq<Byte>>, chunks: seq<seq<Byte>>, n: nat)
    requires n > 0 && SendQueue(q, start, end, packets, n)
    ensures SendQueue(q, start, end, packets + chunks, n)
    decreases |q|
  {
    if |q| > 0 {
      SendQueueGrows(q[1..], start + q[0].count, end, packets, chunks, n);
      SpanPrefix(packets, chunks, start, start + q[0].count);
    }
  }

  /** The queued send completions stay within [start..end). */
  lemma {:induction false} SendQueueOrdered(q: seq<Posted>, start: nat, end: nat, packets: seq<seq<Byte>>, n: nat)
    requires n > 0 && SendQueue(q, start, end, packets, n)
    ensures start <= end && (|q| > 0 ==> start + q[0].count <= end)
    decreases |q|
  {
    if |q| > 0 {
      SendQueueOrdered(q[1..], start + q[0].count, end, packets, n);
    }
  }

  // ---------- request life cycles ----------

  /** How many of the queued requests are receives. */
  function Recvs(sq: seq<Request>): (r: nat)
    ensures r <= |sq|
  {
    if |sq| == 0 then 0 else (if sq[0].RecvRequest? then 1 else 0) + Recvs(sq[1..])
  }

  lemma {:induction false} RecvsAppend(sq: seq<Request>, r: Request)
    ensures Recvs(sq + [r]) == Recvs(sq) + if r.RecvRequest? then 1 else 0
    decreases |sq|
  {
    if |sq| == 0 {
      assert (sq + [r])[1..] == [];
    } else {
      RecvsAppend(sq[1..], r);
      assert (sq + [r])[1..] == sq[1..] + [r];
    }
  }

  function One(b: bool): nat {
    if b then 1 else 0
  }

  /** The last completion of a request is in the queue. */
  predicate Terminal(q: seq<Posted>) {
    |q| > 0 && !q[|q| - 1].cqe.more
  }

  /**
   * A request is pending exactly when it is in one of three places: on the submission queue,
   * armed in the kernel, or finished with its last completion not handled yet.
   */
  ghost predicate Life(pending: bool, queued: nat, armed: bool, q: seq<Posted>) {
    && queued + One(armed) + One(Terminal(q)) == One(pending)
    && (|q| > 0 ==> armed || Terminal(q))
    && (forall i :: 0 <= i < |q| - 1 ==> q[i].cqe.more)
  }

  lemma LifePost(pending: bool, queued: nat, q: seq<Posted>, p: Posted)
    requires Life(pending, queued, true, q)
    ensures Life(pending, queued, p.cqe.more, q + [p])
  {
    assert (q + [p])[|q + [p]| - 1] == p;
    assert !Terminal(q);
    forall i | 0 <= i < |q + [p]| - 1 ensures (q + [p])[i].cqe.more {
    }
  }

  lemma LifeTake(pending: bool, queued: nat, armed: bool, q: seq<Posted>)
    requires Life(pending, queued, armed, q) && |q| > 0
    ensures q[0].cqe.more ==> Life(pending, queued, armed, q[1..])
    ensures !q[0].cqe.more ==> |q| == 1 && Life(false, queued, armed, q[1..]) && queued == 0 && !armed
  {
    if q[0].cqe.more {
      assert |q| > 1 ==> q[1..][|q| - 2] == q[|q| - 1];
    }
  }

  // ---------- the invariant ----------

  ghost predicate Rings(s: State, g: Log, n: nat, bufSize: nat) {
    && |s.u.inBr.bufs| == |s.u.outBr.bufs| == n && 0 < n <= 32768 && U16 % n == 0
    && 0 < bufSize < 0x8000_0000
    && g.acked <= g.sent <= g.queued <= |g.packets| <= g.acked + n
    && PacketsOk(g.packets, bufSize)
    && InOk(s.u.inBr.bufs, bufSize)
    && OutOk(s.u.outBr.bufs, g.packets, g.acked, g.queued, bufSize)
    && MemOk(s.k.mem, g.packets, g.sent, n, bufSize)
  }

  ghost predicate Heads(s: State, g: Log, n: nat) {
    && s.u.inBr.tail == (g.acked + n) % U16
    && s.k.inHead == |g.packets| % U16
    && s.u.outBr.tail == g.queued % U16
    && s.k.outHead == g.sent % U16
  }

  ghost predicate Directions(u: User, g: Log, n: nat)
    requires n > 0 && g.acked <= g.queued <= |g.packets|
  {
    && u.cd1.outBuffers == g.queued - g.acked
    && u.cd1.sndNextBid == (if g.acked == 0 then -1 else g.acked % n)
    && (u.cd0.rcvNextBid == g.queued % n || (u.cd0.rcvNextBid == -1 && g.queued == 0))
    && u.cd0.inBytes == Span(g.packets, 0, g.queued) % U64
    && u.cd1.outBytes == Span(g.packets, 0, g.acked) % U64
    && u.cd0.outBuffers == 0 && !u.cd0.pendingSend
  }

  ghost predicate Streams(k: Kernel, g: Log)
    requires g.sent <= |g.packets|
  {
    k.recvd == Cat(g.packets) && k.sent == Cat(g.packets[..g.sent])
  }

  ghost predicate Requests(s: State, g: Log) {
    && Life(s.u.cd0.pendingRecv, Recvs(s.u.sq), s.k.recvArmed, s.k.recvCq)
    && Life(s.u.cd1.pendingSend, |s.u.sq| - Recvs(s.u.sq), s.k.sendArmed, s.k.sendCq)
    && (s.k.sendArmed || |s.u.sq| > Recvs(s.u.sq) ==> g.sent < g.queued)
  }

  ghost predicate IsEof(p: Posted) {
    p.cqe.res == 0 && !p.cqe.more && p.count == 0
  }

  ghost predicate Ending(s: State, g: Log) {
    && (s.u.cd1.pendingShutdown ==> s.u.cd0.pendingShutdown)
    && (s.u.cd0.pendingShutdown ==> s.k.eof && g.queued == |g.packets|)
    && (s.k.eof && !s.u.cd0.pendingShutdown ==> |s.k.recvCq| > 0 && IsEof(s.k.recvCq[|s.k.recvCq| - 1]))
    && (|s.k.recvCq| > 0 && IsEof(s.k.recvCq[|s.k.recvCq| - 1]) ==> s.k.eof)
  }

  /** Queued buffers wait without a send only while a receive may still bring them to half the ring. */
  ghost predicate Flowing(u: User) {
    u.cd1.pendingSend || u.cd1.outBuffers == 0 || (u.cd0.pendingRecv && u.cd1.outBuffers < |u.inBr.bufs| / 2)
  }

  /** Something is still under way, or the stream has ended and everything was sent. */
  ghost predicate Moving(u: User) {
    && Flowing(u)
    && (u.cd0.pendingRecv || u.cd1.pendingSend || (u.cd0.pendingShutdown && u.cd1.outBuffers == 0))
  }

  ghost predicate Inv(s: State, g: Log, n: nat, bufSize: nat) {
    && Rings(s, g, n, bufSize)
    && Heads(s, g, n)
    && Directions(s.u, g, n)
    && Streams(s.k, g)
    && RecvQueue(s.k.recvCq, g.queued, g.packets, n, bufSize)
    && SendQueue(s.k.sendCq, g.acked, g.sent, g.packets, n)
    && Requests(s, g)
    && Ending(s, g)
    && Moving(s.u)
  }
}
