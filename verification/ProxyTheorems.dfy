// What the proxy promises, in every state of every run.
module ProxyTheorems {
  import opened Arith
  import opened Bytes
  import opened ProxyModel
  import opened ProxyMachine
  import opened ProxyInvariant
  import opened ProxySteps

  // ---------- the invariant holds throughout ----------

  lemma ConfigMeans(n: nat, bufSize: nat)
    requires Config(n, bufSize)
    ensures 0 < n <= 32768 && U16 % n == 0 && 0 < bufSize < 0x8000_0000
  {
    var k: nat :| k <= 15 && n == Pow2(k);
    Pow2Divides(k, 16);
    Pow2Monotone(k, 15);
    PowerValues();
  }

  lemma InitHolds(s: State, n: nat, bufSize: nat)
    requires Config(n, bufSize) && Init(s, n, bufSize)
    ensures Inv(s, Log([], 0, 0, 0), n, bufSize)
  {
    ConfigMeans(n, bufSize);
    ModSmall(n, U16);
  }

  lemma StepKeeps(s: State, e: Event, s': State, g: Log, n: nat, bufSize: nat) returns (g': Log)
    requires Inv(s, g, n, bufSize) && Next(s, e, bufSize, s')
    ensures Inv(s', g', n, bufSize)
  {
    g' := g;
    match e
    case Submit => SubmitKeeps(s, s', g, n, bufSize);
    case Receive(chunks, more) => g' := ReceiveKeeps(s, chunks, more, s', g, n, bufSize);
    case Eof(hasBuf) => EofKeeps(s, hasBuf, s', g, n, bufSize);
    case NoRecvBufs => NoRecvBufsKeeps(s, s', g, n, bufSize);
    case Send(count, more) => g' := SendKeeps(s, count, more, s', g, n, bufSize);
    case NoSendBufs => SendAlwaysHasWork(s, s', g, n, bufSize);
    case RunHandleRecv => g' := HandleRecvKeeps(s, g, n, bufSize);
    case RunHandleSend => g' := HandleSendKeeps(s, g, n, bufSize);
  }

  /** Every state of every run satisfies the invariant, for some packet log. */
  lemma {:induction false} RunKeeps(states: seq<State>, events: seq<Event>, n: nat, bufSize: nat, i: nat)
    returns (g: Log)
    requires Config(n, bufSize) && Run(states, events, n, bufSize) && i < |states|
    ensures Inv(states[i], g, n, bufSize)
    decreases i
  {
    hide Inv, Next, Init;
    if i == 0 {
      InitHolds(states[0], n, bufSize);
      g := Log([], 0, 0, 0);
    } else {
      var g0 := RunKeeps(states, events, n, bufSize, i - 1);
      g := StepKeeps(states[i - 1], events[i - 1], states[i], g0, n, bufSize);
    }
  }

  // ---------- stream integrity ----------

  /** The bytes of one unhandled receive completion, read from memory from buffer `bid` on. */
  function ReadBuffers(mem: seq<Byte>, bid: int, bytes: nat, n: nat, bufSize: nat): seq<Byte>
    requires n > 0 && bufSize > 0
    decreases bytes
  {
    if bytes == 0 then []
    else
      var len := Min(bufSize, bytes);
      Block(mem, bid * bufSize, len) + ReadBuffers(mem, (bid + 1) % n, bytes - len, n, bufSize)
  }

  /** The received bytes no handler has seen yet. */
  function Unhandled(mem: seq<Byte>, q: seq<Posted>, n: nat, bufSize: nat): seq<Byte>
    requires n > 0 && bufSize > 0
  {
    if |q| == 0 then []
    else
      var c := q[0].cqe;
      (if c.res > 0 then ReadBuffers(mem, c.bid, c.res, n, bufSize) else [])
        + Unhandled(mem, q[1..], n, bufSize)
  }

  /** The first buffer read, and the rest. */
  lemma ReadFirst(mem: seq<Byte>, bid: int, bytes: nat, len: nat, n: nat, bufSize: nat)
    requires n > 0 && bufSize > 0 && bytes > 0 && len == Min(bufSize, bytes)
    ensures ReadBuffers(mem, bid, bytes, n, bufSize)
         == Block(mem, bid * bufSize, len) + ReadBuffers(mem, (bid + 1) % n, bytes - len, n, bufSize)
  {
  }

  lemma {:induction false} ReadBuffersIsPackets(
      mem: seq<Byte>, packets: seq<seq<Byte>>, start: nat, i: nat, end: nat, n: nat, bufSize: nat)
    requires n > 0 && bufSize > 0 && start <= i <= end <= |packets|
    requires MemOk(mem, packets, start, n, bufSize) && PacketsOk(packets, bufSize)
    requires forall j :: i <= j < end - 1 ==> |packets[j]| == bufSize
    ensures ReadBuffers(mem, i % n, Span(packets, i, end), n, bufSize) == Cat(packets[i..end])
    decreases end - i
  {
    hide MemOk, PacketsOk, Cat, Block;
    if i == end {
      EmptyCat(packets[i..end]);
    } else {
      hide Span, ReadBuffers;
      NextLength(packets, i, end, bufSize);
      ReadFirst(mem, i % n, Span(packets, i, end), |packets[i]|, n, bufSize);
      StoredAt(mem, packets, start, i, n, bufSize);
      ModAdd(i, 1, n);
      ReadBuffersIsPackets(mem, packets, start, i + 1, end, n, bufSize);
      CatHead(packets, i, end);
    }
  }

  lemma CatHead(packets: seq<seq<Byte>>, i: nat, end: nat)
    requires i < end <= |packets|
    ensures Cat(packets[i..end]) == packets[i] + Cat(packets[i + 1..end])
  {
    hide Cat;
    CatSplit(packets, i, i + 1, end);
    CatSingle(packets, i);
  }

  lemma StoredAt(mem: seq<Byte>, packets: seq<seq<Byte>>, start: nat, i: nat, n: nat, bufSize: nat)
    requires MemOk(mem, packets, start, n, bufSize) && start <= i < |packets|
    ensures Block(mem, (i % n) * bufSize, |packets[i]|) == packets[i]
  {
    assert Stored(mem, i, packets[i], n, bufSize);
  }

  lemma CatSplit(packets: seq<seq<Byte>>, a: nat, b: nat, c: nat)
    requires a <= b <= c <= |packets|
    ensures Cat(packets[a..c]) == Cat(packets[a..b]) + Cat(packets[b..c])
  {
    CatAppend(packets[a..b], packets[b..c]);
    assert packets[a..b] + packets[b..c] == packets[a..c];
  }

  lemma CatSingle(packets: seq<seq<Byte>>, i: nat)
    requires i < |packets|
    ensures Cat(packets[i..i + 1]) == packets[i]
  {
    CatOne(packets[i]);
    assert packets[i..i + 1] == [packets[i]];
  }

  lemma {:induction false} UnhandledIsPackets(
      mem: seq<Byte>, q: seq<Posted>, packets: seq<seq<Byte>>, start: nat, i: nat, n: nat, bufSize: nat)
    requires n > 0 && bufSize > 0 && start <= i <= |packets|
    requires MemOk(mem, packets, start, n, bufSize) && PacketsOk(packets, bufSize)
    requires RecvQueue(q, i, packets, n, bufSize)
    ensures Unhandled(mem, q, n, bufSize) == Cat(packets[i..])
    decreases |q|
  {
    hide MemOk, PacketsOk, Cat, ReadBuffers;
    if |q| == 0 {
      EmptyCat(packets[i..]);
    } else {
      var end := i + q[0].count;
      CompletionIsPackets(mem, q[0], packets, start, i, n, bufSize);
      UnhandledIsPackets(mem, q[1..], packets, start, end, n, bufSize);
      CatSplit(packets, i, end, |packets|);
      assert packets[i..|packets|] == packets[i..] && packets[end..|packets|] == packets[end..];
    }
  }

  lemma CompletionIsPackets(
      mem: seq<Byte>, p: Posted, packets: seq<seq<Byte>>, start: nat, i: nat, n: nat, bufSize: nat)
    requires n > 0 && bufSize > 0 && start <= i <= |packets|
    requires MemOk(mem, packets, start, n, bufSize) && PacketsOk(packets, bufSize)
    requires RecvEntry(p, i, packets, n, bufSize)
    ensures (if p.cqe.res > 0 then ReadBuffers(mem, p.cqe.bid, p.cqe.res, n, bufSize) else [])
         == Cat(packets[i..i + p.count])
  {
    hide MemOk, PacketsOk, Cat;
    BytesMeanPackets(p, i, packets, n, bufSize);
    if p.count > 0 {
      ReadBuffersIsPackets(mem, packets, start, i, i + p.count, n, bufSize);
    } else {
      EmptyCat(packets[i..i + p.count]);
    }
  }

  /** What was received is what was sent, then the outgoing ring, then what is not handled yet. */
  ghost predicate StreamIntact(s: State, n: nat, bufSize: nat)
    requires n > 0 && bufSize > 0 && Shape(s.u)
  {
    s.k.recvd == s.k.sent
      + Gather(s.k.mem, s.u.outBr, s.k.outHead, Available(s.u.outBr, s.k.outHead))
      + Unhandled(s.k.mem, s.k.recvCq, n, bufSize)
  }

  lemma InvKeepsStream(s: State, g: Log, n: nat, bufSize: nat)
    requires Inv(s, g, n, bufSize)
    ensures Shape(s.u) && StreamIntact(s, n, bufSize)
  {
    hide OutOk, MemOk, InOk, PacketsOk, SendQueue, RecvQueue, Gather, Unhandled, Cat, Life, Recvs, Span;
    AvailableOut(s, g, n, bufSize);
    SendTakesPackets(s, g.queued - g.sent, g, n, bufSize);
    UnhandledIsPackets(s.k.mem, s.k.recvCq, g.packets, g.sent, g.queued, n, bufSize);
    CatThirds(g.packets, g.sent, g.queued);
  }

  lemma CatThirds(packets: seq<seq<Byte>>, a: nat, b: nat)
    requires a <= b <= |packets|
    ensures Cat(packets) == Cat(packets[..a]) + Cat(packets[a..b]) + Cat(packets[b..])
  {
    hide Cat;
    CatSplit(packets, 0, a, |packets|);
    CatSplit(packets, a, b, |packets|);
    WholeSlices(packets, a, b);
  }

  lemma WholeSlices(packets: seq<seq<Byte>>, a: nat, b: nat)
    requires a <= b <= |packets|
    ensures packets[0..|packets|] == packets && packets[0..a] == packets[..a]
    ensures packets[a..|packets|] == packets[a..] && packets[b..|packets|] == packets[b..]
  {
  }

  /**
   * Stream refinement: in every reachable state what was sent on out_fd, followed by what the
   * outgoing ring holds, followed by what was received but not handled yet, is exactly what was
   * received on in_fd. In particular the sent bytes are an unmodified prefix of the received ones.
   */
  lemma StreamRefines(states: seq<State>, events: seq<Event>, n: nat, bufSize: nat, i: nat)
    requires Config(n, bufSize) && Run(states, events, n, bufSize) && i < |states|
    ensures bufSize > 0 && n > 0 && Shape(states[i].u) && StreamIntact(states[i], n, bufSize)
    ensures states[i].k.sent <= states[i].k.recvd
  {
    hide Inv, Run, Unhandled, Gather;
    ConfigMeans(n, bufSize);
    var g := RunKeeps(states, events, n, bufSize, i);
    InvKeepsStream(states[i], g, n, bufSize);
  }

  // ---------- buffer conservation ----------

  ghost predicate At(i: int, n: nat, b: int)
    requires n > 0
  {
    i % n == b
  }

  /** Some position in [lo..hi) is b modulo n. */
  ghost predicate Within(lo: int, hi: int, n: nat, b: int)
    requires n > 0
  {
    exists i :: lo <= i < hi && At(i, n, b)
  }

  /** One of the `count` ring entries from `head` on describes buffer b. */
  ghost predicate Holds(br: BufRing, head: int, count: int, b: int)
    requires |br.bufs| > 0
  {
    exists h :: head <= h < head + count && Entry(br, h).bid == b
  }

  /** The kernel may still receive into buffer b. */
  ghost predicate InReceiveRing(s: State, b: int)
    requires Shape(s.u)
  {
    Holds(s.u.inBr, s.k.inHead, Available(s.u.inBr, s.k.inHead), b)
  }

  /** A receive into buffer b has completed but was not handled yet. */
  ghost predicate InCompletions(q: seq<Posted>, n: nat, b: int)
    requires n > 0
  {
    |q| > 0 && (Within(q[0].cqe.bid, q[0].cqe.bid + q[0].count, n, b) || InCompletions(q[1..], n, b))
  }

  /** Buffer b is one of the out_buffers entries last added to the outgoing ring. */
  ghost predicate InOutgoing(u: User, b: int)
    requires Shape(u)
  {
    Holds(u.outBr, u.outBr.tail - u.cd1.outBuffers, u.cd1.outBuffers, b)
  }

  ghost predicate ExactlyOne(p: bool, q: bool, r: bool) {
    (p || q || r) && !(p && q) && !(q && r) && !(p && r)
  }

  /** Consecutive entries that describe consecutive buffers hold a cyclic interval of ids. */
  lemma HoldsIsWithin(br: BufRing, head: int, count: int, k: int, b: int)
    requires |br.bufs| > 0
    requires forall h :: head <= h < head + count ==> Entry(br, h).bid == (k + (h - head)) % |br.bufs|
    ensures Holds(br, head, count, b) <==> Within(k, k + count, |br.bufs|, b)
  {
    var n := |br.bufs|;
    if Holds(br, head, count, b) {
      var h :| head <= h < head + count && Entry(br, h).bid == b;
      assert At(k + (h - head), n, b);
    }
    if Within(k, k + count, n, b) {
      var i :| k <= i < k + count && At(i, n, b);
      var h := head + (i - k);
      assert Entry(br, h).bid == b;
    }
  }

  lemma ReceiveRingIs(br: BufRing, head: int, count: int, k: int, bufSize: nat, b: int)
    requires |br.bufs| > 0 && U16 % |br.bufs| == 0 && InOk(br.bufs, bufSize) && head == k % U16
    ensures Holds(br, head, count, b) <==> Within(k, k + count, |br.bufs|, b)
  {
    forall h | head <= h < head + count ensures Entry(br, h).bid == (k + (h - head)) % |br.bufs| {
      SlotOf(k, h - head, |br.bufs|);
    }
    HoldsIsWithin(br, head, count, k, b);
  }

  /** The entry j places from the oldest queued one is packet start + j's. */
  lemma OutgoingEntry(br: BufRing, packets: seq<seq<Byte>>, start: nat, end: nat, bufSize: nat, j: nat)
    requires OutOk(br.bufs, packets, start, end, bufSize) && U16 % |br.bufs| == 0 && start + j < end
    requires br.tail == end % U16
    ensures var slot := (start + j) % |br.bufs|;
            && Entry(br, br.tail - (end - start) + j) == br.bufs[slot]
            && br.bufs[slot] == Buf(slot * bufSize, |packets[start + j]|, slot)
  {
    SlotOf(end, j - (end - start), |br.bufs|);
    assert Queued(br.bufs, start + j, |packets[start + j]|, bufSize);
  }

  lemma OutgoingIs(br: BufRing, packets: seq<seq<Byte>>, start: nat, end: nat, bufSize: nat, b: int)
    requires OutOk(br.bufs, packets, start, end, bufSize) && U16 % |br.bufs| == 0 && start <= end
    requires br.tail == end % U16
    ensures Holds(br, br.tail - (end - start), end - start, b) <==> Within(start, end, |br.bufs|, b)
  {
    var head := br.tail - (end - start);
    forall h | head <= h < br.tail ensures Entry(br, h).bid == (start + (h - head)) % |br.bufs| {
      OutgoingEntry(br, packets, start, end, bufSize, h - head);
    }
    HoldsIsWithin(br, head, end - start, start, b);
  }

  lemma WithinShift(lo: int, lo': int, count: nat, n: nat, b: int)
    requires n > 0 && lo % n == lo' % n && Within(lo, lo + count, n, b)
    ensures Within(lo', lo' + count, n, b)
  {
    var i :| lo <= i < lo + count && At(i, n, b);
    ModAdd(lo, i - lo, n);
    ModAdd(lo', i - lo, n);
    assert At(lo' + (i - lo), n, b);
  }

  lemma WithinSplit(lo: int, mid: int, hi: int, n: nat, b: int)
    requires n > 0 && lo <= mid <= hi
    ensures Within(lo, hi, n, b) <==> Within(lo, mid, n, b) || Within(mid, hi, n, b)
  {
    hide At;
  }

  lemma FirstCompletionIs(p: Posted, start: nat, packets: seq<seq<Byte>>, n: nat, bufSize: nat, b: int)
    requires n > 0 && RecvEntry(p, start, packets, n, bufSize)
    ensures Within(p.cqe.bid, p.cqe.bid + p.count, n, b) <==> Within(start, start + p.count, n, b)
  {
    hide At;
    if p.count > 0 {
      ModAdd(start, 0, n);
      if Within(p.cqe.bid, p.cqe.bid + p.count, n, b) {
        WithinShift(p.cqe.bid, start, p.count, n, b);
      }
      if Within(start, start + p.count, n, b) {
        WithinShift(start, p.cqe.bid, p.count, n, b);
      }
    }
  }

  lemma {:induction false} CompletionsAre(
      q: seq<Posted>, start: nat, packets: seq<seq<Byte>>, n: nat, bufSize: nat, b: int)
    requires n > 0 && RecvQueue(q, start, packets, n, bufSize)
    ensures start <= |packets|
    ensures InCompletions(q, n, b) <==> Within(start, |packets|, n, b)
    decreases |q|
  {
    hide At, Within;
    if |q| == 0 {
      WithinNothing(start, n, b);
    } else {
      var mid := start + q[0].count;
      CompletionsAre(q[1..], mid, packets, n, bufSize, b);
      FirstCompletionIs(q[0], start, packets, n, bufSize, b);
      WithinSplit(start, mid, |packets|, n, b);
    }
  }

  lemma WithinNothing(lo: int, n: nat, b: int)
    requires n > 0
    ensures !Within(lo, lo, n, b)
  {
  }

  /** Every residue occurs in n consecutive positions... */
  lemma WithinAll(lo: int, n: nat, b: int)
    requires 0 <= b < n
    ensures Within(lo, lo + n, n, b)
  {
    var i := lo + (b - lo) % n;
    ModAdd(b - lo, lo, n);
    ModSmall(b, n);
    assert At(i, n, b);
  }

  /** ...and only in one of two adjoining ranges of them. */
  lemma WithinOnce(a: int, b: int, c: int, d: int, n: nat, x: int)
    requires n > 0 && a <= b <= c <= d <= a + n
    ensures !(Within(a, b, n, x) && Within(c, d, n, x))
  {
    if Within(a, b, n, x) && Within(c, d, n, x) {
      var i :| a <= i < b && At(i, n, x);
      var j :| c <= j < d && At(j, n, x);
      ModInjective(i, j, n);
    }
  }

  lemma ThreeWays(a: int, b: int, c: int, n: nat, x: int)
    requires 0 <= x < n && a <= b <= c <= a + n
    ensures ExactlyOne(Within(c, a + n, n, x), Within(b, c, n, x), Within(a, b, n, x))
  {
    hide At, Within;
    WithinAll(a, n, x);
    WithinSplit(a, b, a + n, n, x);
    WithinSplit(b, c, a + n, n, x);
    WithinOnce(a, b, b, c, n, x);
    WithinOnce(a, b, c, a + n, n, x);
    WithinOnce(b, c, c, a + n, n, x);
  }

  /** Buffer b is in exactly one place. */
  ghost predicate Conserved(s: State, n: nat, b: int)
    requires Shape(s.u) && n > 0
  {
    ExactlyOne(InReceiveRing(s, b), InCompletions(s.k.recvCq, n, b), InOutgoing(s.u, b))
  }

  lemma InvConserves(s: State, g: Log, n: nat, bufSize: nat, b: int)
    requires Inv(s, g, n, bufSize) && 0 <= b < n
    ensures Shape(s.u) && Conserved(s, n, b) && 0 <= s.u.cd1.outBuffers <= n
  {
    hide At, Within, Holds, InOk, OutOk, MemOk, PacketsOk, RecvQueue, SendQueue, Life, Recvs, Span, Cat;
    AvailableIn(s, g, n, bufSize);
    ReceiveRingIs(s.u.inBr, s.k.inHead, g.acked + n - |g.packets|, |g.packets|, bufSize, b);
    OutgoingIs(s.u.outBr, g.packets, g.acked, g.queued, bufSize, b);
    CompletionsAre(s.k.recvCq, g.queued, g.packets, n, bufSize, b);
    ThreeWays(g.acked, g.queued, |g.packets|, n, b);
  }

  /**
   * Conservation: in every reachable state each buffer is in exactly one place: free for the
   * kernel, received but not handled, or on its way out. None is lost, none is handed out twice.
   */
  lemma BuffersConserved(states: seq<State>, events: seq<Event>, n: nat, bufSize: nat, i: nat, b: int)
    requires Config(n, bufSize) && Run(states, events, n, bufSize) && i < |states| && 0 <= b < n
    ensures Shape(states[i].u) && Conserved(states[i], n, b)
    ensures 0 <= states[i].u.cd1.outBuffers <= n
  {
    hide Inv, Run, Conserved;
    var g := RunKeeps(states, events, n, bufSize, i);
    InvConserves(states[i], g, n, bufSize, b);
  }

  /** Slot index and buffer id coincide: in the whole receive ring, and in each queued outgoing slot. */
  ghost predicate SlotsAreBids(u: User, n: nat, bufSize: nat) {
    && |u.inBr.bufs| == |u.outBr.bufs| == n > 0
    && (forall j :: 0 <= j < n ==> u.inBr.bufs[j] == Buf(j * bufSize, bufSize, j))
    && (forall h :: u.outBr.tail - u.cd1.outBuffers <= h < u.outBr.tail ==>
          SlotIsBid(u.outBr, Entry(u.outBr, h), bufSize))
  }

  ghost predicate SlotIsBid(br: BufRing, e: Buf, bufSize: nat) {
    0 <= e.bid < |br.bufs| && br.bufs[e.bid] == e && e.addr == e.bid * bufSize && 0 < e.len <= bufSize
  }

  lemma InvKeepsSlots(s: State, g: Log, n: nat, bufSize: nat)
    requires Inv(s, g, n, bufSize)
    ensures SlotsAreBids(s.u, n, bufSize)
  {
    hide MemOk, OutOk, RecvQueue, SendQueue, Life, Recvs, Span, Cat;
    var head := s.u.outBr.tail - s.u.cd1.outBuffers;
    forall h | head <= h < s.u.outBr.tail ensures SlotIsBid(s.u.outBr, Entry(s.u.outBr, h), bufSize) {
      OutgoingEntry(s.u.outBr, g.packets, g.acked, g.queued, bufSize, h - head);
    }
  }

  lemma SlotIndexIsBufferId(states: seq<State>, events: seq<Event>, n: nat, bufSize: nat, i: nat)
    requires Config(n, bufSize) && Run(states, events, n, bufSize) && i < |states|
    ensures SlotsAreBids(states[i].u, n, bufSize)
  {
    hide Inv, Run, SlotsAreBids;
    var g := RunKeeps(states, events, n, bufSize, i);
    InvKeepsSlots(states[i], g, n, bufSize);
  }

  // ---------- no failure, no stall ----------

  /** The next completions are handled without failing, aborting or taking a bid-mismatch branch. */
  ghost predicate HandlersSucceed(s: State, bufSize: nat) {
    && (|s.k.recvCq| > 0 ==>
          var c := s.k.recvCq[0].cqe;
          && RecvCallable(s.u, c) && HandleRecv(s.u, c).outcome == Handled
          && (c.res >= 0 && c.hasBuf ==> !BidMismatch(s.u.cd0.rcvNextBid, c.bid)))
    && (|s.k.sendCq| > 0 ==>
          var c := s.k.sendCq[0].cqe;
          && SendCallable(s.u, c) && HandleSend(s.u, c, bufSize).outcome == Handled
          && c.hasBuf && !BidMismatch(s.u.cd1.sndNextBid, c.bid))
  }

  lemma InvHandles(s: State, g: Log, n: nat, bufSize: nat)
    requires Inv(s, g, n, bufSize)
    ensures HandlersSucceed(s, bufSize)
  {
    hide Inv, RecvCallable, SendCallable, HandleRecv, HandleSend;
    if |s.k.recvCq| > 0 {
      RecvIsCallable(s, g, n, bufSize);
      var _ := HandleRecvKeeps(s, g, n, bufSize);
    }
    if |s.k.sendCq| > 0 {
      SendIsCallable(s, g, n, bufSize);
      var _ := HandleSendKeeps(s, g, n, bufSize);
    }
  }

  lemma HandlersNeverFail(states: seq<State>, events: seq<Event>, n: nat, bufSize: nat, i: nat)
    requires Config(n, bufSize) && Run(states, events, n, bufSize) && i < |states|
    ensures HandlersSucceed(states[i], bufSize)
  {
    hide Inv, Run, HandlersSucceed;
    var g := RunKeeps(states, events, n, bufSize, i);
    InvHandles(states[i], g, n, bufSize);
  }

  /** A ring send the program submitted never finds the outgoing ring empty. */
  lemma SendNeverStarves(states: seq<State>, events: seq<Event>, n: nat, bufSize: nat, i: nat)
    requires Config(n, bufSize) && Run(states, events, n, bufSize) && i < |events|
    ensures events[i] != NoSendBufs
    ensures states[i].k.sendArmed ==> Available(states[i].u.outBr, states[i].k.outHead) > 0
  {
    var g := RunKeeps(states, events, n, bufSize, i);
    assert Next(states[i], events[i], bufSize, states[i + 1]);
    hide Inv, Run, Init;
    SendHasWork(states[i], g, n, bufSize);
    SendAlwaysHasWork(states[i], states[i + 1], g, n, bufSize);
  }

  lemma SendHasWork(s: State, g: Log, n: nat, bufSize: nat)
    requires Inv(s, g, n, bufSize)
    ensures s.k.sendArmed ==> Available(s.u.outBr, s.k.outHead) > 0
  {
    AvailableOut(s, g, n, bufSize);
  }

  ghost predicate CanStep(s: State, bufSize: nat) {
    exists e, s' :: Next(s, e, bufSize, s')
  }

  /** A step on the sending side: submitting requests, sending queued buffers, or taking them back. */
  ghost predicate CanSend(s: State, bufSize: nat) {
    exists e: Event, s' :: (e.Submit? || e.Send? || e.RunHandleSend?) && Next(s, e, bufSize, s')
  }

  lemma PendingRecvCanStep(s: State, g: Log, n: nat, bufSize: nat)
    requires Inv(s, g, n, bufSize) && s.u.cd0.pendingRecv
    ensures CanStep(s, bufSize)
  {
    if |s.u.sq| > 0 {
      SubmitCanSend(s, bufSize);
    } else if s.k.recvArmed {
      var s' := s.(k := s.k.(recvArmed := false, eof := true,
                             recvCq := s.k.recvCq + [Posted(Cqe(0, 0, false, false), 0)]));
      assert Next(s, Eof(false), bufSize, s');
    } else {
      assert |s.k.recvCq| > 0;
      var _ := HandleRecvKeeps(s, g, n, bufSize);
      var s' := State(HandleRecv(s.u, s.k.recvCq[0].cqe).user, PopRecv(s.k));
      assert Next(s, RunHandleRecv, bufSize, s');
    }
  }

  lemma SubmitCanSend(s: State, bufSize: nat)
    requires Shape(s.u) && |s.u.sq| > 0
    ensures CanSend(s, bufSize)
  {
    var s' := State(s.u.(sq := s.u.sq[1..]),
                    if s.u.sq[0].RecvRequest? then s.k.(recvArmed := true) else s.k.(sendArmed := true));
    assert Next(s, Submit, bufSize, s');
  }

  lemma PendingSendCanSend(s: State, g: Log, n: nat, bufSize: nat)
    requires Inv(s, g, n, bufSize) && s.u.cd1.pendingSend
    ensures CanSend(s, bufSize)
  {
    if |s.u.sq| > 0 {
      SubmitCanSend(s, bufSize);
    } else if s.k.sendArmed {
      AvailableOut(s, g, n, bufSize);
      var data := Gather(s.k.mem, s.u.outBr, s.k.outHead, 1);
      var s' := s.(k := s.k.(
        outHead := (s.k.outHead + 1) % U16, sendArmed := false, sent := s.k.sent + data,
        sendCq := s.k.sendCq + [Posted(Cqe(|data|, Entry(s.u.outBr, s.k.outHead).bid, true, false), 1)]));
      assert Next(s, Send(1, false), bufSize, s');
    } else {
      assert |s.k.sendCq| > 0;
      var _ := HandleSendKeeps(s, g, n, bufSize);
      var s' := State(HandleSend(s.u, s.k.sendCq[0].cqe, bufSize).user, PopSend(s.k));
      assert Next(s, RunHandleSend, bufSize, s');
    }
  }

  lemma InvMoves(s: State, g: Log, n: nat, bufSize: nat)
    requires Inv(s, g, n, bufSize)
    ensures Moving(s.u) && (CanStep(s, bufSize) || ShouldShutdown(s.u))
    ensures s.u.cd1.pendingSend ==> CanSend(s, bufSize)
  {
    hide OutOk, MemOk, InOk, PacketsOk, SendQueue, RecvQueue, Cat, Life, Recvs, Span, CanStep, CanSend;
    if s.u.cd1.pendingSend {
      PendingSendCanSend(s, g, n, bufSize);
      SendingIsStepping(s, bufSize);
    } else if s.u.cd0.pendingRecv {
      PendingRecvCanStep(s, g, n, bufSize);
    }
  }

  lemma SendingIsStepping(s: State, bufSize: nat)
    requires CanSend(s, bufSize)
    ensures CanStep(s, bufSize)
  {
  }

  /** With every buffer taken and handled, all of them are queued, so a send is pending. */
  lemma FullRingIsSending(s: State, g: Log, n: nat, bufSize: nat)
    requires Inv(s, g, n, bufSize) && Available(s.u.inBr, s.k.inHead) == 0 && s.k.recvCq == []
    ensures s.u.cd1.pendingSend
  {
    AvailableIn(s, g, n, bufSize);
  }

  /**
   * No stall: in every reachable state buffers wait without a send only below half the ring and
   * with a receive pending; a receive or a send is pending, or the stream ended and nothing is
   * queued; a pending send can always advance, and one is pending when the receive ring has run
   * dry; and unless the connection should be shut down, some step can be taken.
   */
  lemma NeverStalls(states: seq<State>, events: seq<Event>, n: nat, bufSize: nat, i: nat)
    requires Config(n, bufSize) && Run(states, events, n, bufSize) && i < |states|
    ensures Flowing(states[i].u) && Moving(states[i].u)
    ensures states[i].u.cd1.pendingSend ==> CanSend(states[i], bufSize)
    ensures Available(states[i].u.inBr, states[i].k.inHead) == 0 && states[i].k.recvCq == [] ==>
              states[i].u.cd1.pendingSend
    ensures CanStep(states[i], bufSize) || ShouldShutdown(states[i].u)
  {
    var g := RunKeeps(states, events, n, bufSize, i);
    hide Inv, Run, CanStep, CanSend, Flowing, ShouldShutdown;
    InvMoves(states[i], g, n, bufSize);
    if Available(states[i].u.inBr, states[i].k.inHead) == 0 && states[i].k.recvCq == [] {
      FullRingIsSending(states[i], g, n, bufSize);
    }
  }

  /** Queued data is sent at once, unless the receive goes on and less than half the ring is queued. */
  lemma AfterEnqueueSends(u: User, c: Cqe)
    requires Shape(u) && c.res > 0 && u.cd1.outBuffers > 0 && AfterEnqueue(u, c).outcome == Handled
    ensures var d := AfterEnqueue(u, c).user.cd1;
            && d.outBuffers == u.cd1.outBuffers
            && (d.pendingSend <==> u.cd1.pendingSend || !c.more || d.outBuffers >= |u.inBr.bufs| / 2)
  {
  }

  lemma InvSends(s: State, g: Log, n: nat, bufSize: nat)
    requires Inv(s, g, n, bufSize) && |s.k.recvCq| > 0 && s.k.recvCq[0].cqe.res > 0
    ensures RecvCallable(s.u, s.k.recvCq[0].cqe) && SendsWhenDue(s, HandleRecv(s.u, s.k.recvCq[0].cqe).user)
  {
    hide InOk, OutOk, MemOk, SendQueue, AllPositive, Recvs, Life, Requests, Heads, Streams, HandleRecv, AfterEnqueue,
         Enqueue, Span, Cat;
    var p := s.k.recvCq[0];
    RecvIsCallable(s, g, n, bufSize);
    BytesMeanPackets(p, g.queued, g.packets, n, bufSize);
    HandleDataIsEnqueue(s, g, n, bufSize);
    HandleDataReply(s, g, n, bufSize);
    AfterEnqueueSends(Enqueue(s.u, p.cqe), p.cqe);
  }

  /** The handled completion's buffers are queued, and a send is pending exactly when one is due. */
  ghost predicate SendsWhenDue(s: State, u': User)
    requires |s.k.recvCq| > 0
  {
    var p := s.k.recvCq[0];
    && p.count > 0 && u'.cd1.outBuffers == s.u.cd1.outBuffers + p.count
    && (u'.cd1.pendingSend <==> s.u.cd1.pendingSend || !p.cqe.more || u'.cd1.outBuffers >= |s.u.inBr.bufs| / 2)
  }

  /**
   * When received bytes wait: in every reachable state, handling received data leaves a send
   * pending exactly if one was pending, the receive request ended, or the queued buffers now reach
   * half the ring. In every other case the bytes stay until the peer sends more.
   */
  lemma DataWaitsBelowHalf(states: seq<State>, events: seq<Event>, n: nat, bufSize: nat, i: nat)
    requires Config(n, bufSize) && Run(states, events, n, bufSize) && i < |states|
    requires |states[i].k.recvCq| > 0 && states[i].k.recvCq[0].cqe.res > 0
    ensures RecvCallable(states[i].u, states[i].k.recvCq[0].cqe)
    ensures SendsWhenDue(states[i], HandleRecv(states[i].u, states[i].k.recvCq[0].cqe).user)
  {
    hide Inv, Run, HandleRecv, SendsWhenDue, RecvCallable;
    var g := RunKeeps(states, events, n, bufSize, i);
    InvSends(states[i], g, n, bufSize);
  }

  // ---------- shutdown ----------

  /** The byte counters wrap at 64 bits, yet agree only when nothing is outstanding. */
  lemma EqualCountersMeanDrained(packets: seq<seq<Byte>>, a: nat, b: nat, n: nat, bufSize: nat)
    requires a <= b <= |packets| && b - a <= n <= 32768 && bufSize < 0x8000_0000
    requires PacketsOk(packets, bufSize)
    requires Span(packets, 0, a) % U64 == Span(packets, 0, b) % U64
    ensures a == b
  {
    SpanSplit(packets, 0, a, b);
    SpanBound(packets, a, b, bufSize);
    var bytes := Span(packets, a, b);
    OutstandingBound(b - a, n, bufSize);
    ModInjective(Span(packets, 0, b), Span(packets, 0, a), U64);
  }

  lemma OutstandingBound(d: nat, n: nat, bufSize: nat)
    requires d <= n <= 32768 && bufSize < 0x8000_0000
    ensures d * bufSize <= 32768 * 0x8000_0000
  {
    MulMonotone(d, 32768, bufSize);
    MulMonotone(bufSize, 0x8000_0000, 32768);
  }

  /** should_shutdown holds exactly when the end was handled and nothing is queued, and then all was sent. */
  ghost predicate ShutdownIsDrained(s: State) {
    && (ShouldShutdown(s.u) <==> s.u.cd0.pendingShutdown && s.u.cd1.outBuffers == 0)
    && (ShouldShutdown(s.u) ==> s.k.eof && s.k.sent == s.k.recvd && |s.k.sendCq| == 0)
  }

  lemma InvDrains(s: State, g: Log, n: nat, bufSize: nat)
    requires Inv(s, g, n, bufSize)
    ensures ShutdownIsDrained(s)
  {
    hide OutOk, MemOk, InOk, RecvQueue, Cat, Life, Recvs, Span;
    if s.u.cd0.inBytes == s.u.cd1.outBytes {
      EqualCountersMeanDrained(g.packets, g.acked, g.queued, n, bufSize);
    }
    if ShouldShutdown(s.u) {
      assert g.packets[..g.sent] == g.packets;
      SendQueueOrdered(s.k.sendCq, g.acked, g.sent, g.packets, n);
    }
  }

  /**
   * Drained shutdown: in every reachable state the connection is shut down exactly when the end of
   * the stream was handled and every byte ever received has been sent and its completion handled.
   */
  lemma ShutdownMeansDrained(states: seq<State>, events: seq<Event>, n: nat, bufSize: nat, i: nat)
    requires Config(n, bufSize) && Run(states, events, n, bufSize) && i < |states|
    ensures ShutdownIsDrained(states[i])
  {
    hide Inv, Run, ShutdownIsDrained;
    var g := RunKeeps(states, events, n, bufSize, i);
    InvDrains(states[i], g, n, bufSize);
  }
}
