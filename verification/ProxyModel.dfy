// The unidirectional proxy of examples/proxy.c: provided-buffer rings, the two
// connection directions, and what each completion handler does to them.
// cd0 is the receiving direction (in_fd), cd1 the sending direction (out_fd).
module ProxyModel {
  import opened Arith

  /** One entry of a provided-buffer ring. */
  datatype Buf = Buf(addr: int, len: int, bid: int)

  /** A provided-buffer ring; `tail` is the 16-bit counter shared with the kernel. */
  datatype BufRing = BufRing(bufs: seq<Buf>, tail: int)

  datatype ConnDir = ConnDir(
    pendingShutdown: bool, pendingSend: bool, pendingRecv: bool,
    outBuffers: int, sndNextBid: int, rcvNextBid: int,
    inBytes: int, outBytes: int)

  /** A request the handlers put on the submission queue. */
  datatype Request = RecvRequest | SendRequest(bid: int)

  /** Everything the handlers of one connection read and write. */
  datatype User = User(
    inBr: BufRing, outBr: BufRing, cd0: ConnDir, cd1: ConnDir,
    sq: seq<Request>, closing: bool)

  /** The parts of a completion the handlers look at. */
  datatype Cqe = Cqe(res: int, bid: int, hasBuf: bool, more: bool)

  /** Handled: the handler returned 0; Fatal: it returned 1; AssertFails: it aborted. */
  datatype Outcome = Handled | Fatal | AssertFails

  datatype Reply = Reply(user: User, outcome: Outcome)

  /** Where a walk over a ring stopped: the ring written, the next bid, how many entries, the byte counter. */
  datatype Walk = Walk(ring: BufRing, bid: int, count: nat, total: int)

  const ENOBUFS := -105

  function NewDir(): ConnDir {
    ConnDir(false, false, false, 0, -1, -1, 0, 0)
  }

  /** A connection whose rings are set up: all buffers are in the receive ring. */
  function NewUser(nrBufs: nat, bufSize: int): User {
    User(BufRing(seq(nrBufs, i requires 0 <= i < nrBufs => Buf(i * bufSize, bufSize, i)), nrBufs % U16),
         BufRing(seq(nrBufs, i => Buf(0, 0, 0)), 0), NewDir(), NewDir(), [], false)
  }

  function Min(a: int, b: int): int {
    if a <= b then a else b
  }

  ghost predicate Shape(u: User) {
    |u.inBr.bufs| == |u.outBr.bufs| > 0
  }

  ghost predicate AllPositive(bufs: seq<Buf>) {
    forall i :: 0 <= i < |bufs| ==> bufs[i].len > 0
  }

  /** The entries from `bid` on have positive lengths for as long as `bytes` lasts. */
  ghost predicate Covers(bufs: seq<Buf>, bid: int, bytes: nat)
    requires 0 <= bid < |bufs|
    decreases bytes
  {
    bytes == 0 ||
    (bufs[bid].len > 0 && Covers(bufs, (bid + 1) % |bufs|, bytes - Min(bufs[bid].len, bytes)))
  }

  function Add(br: BufRing, addr: int, len: int, bid: int, offset: int): BufRing
    requires |br.bufs| > 0
  {
    br.(bufs := br.bufs[(br.tail + offset) % |br.bufs| := Buf(addr, len, bid)])
  }

  function Advance(br: BufRing, count: int): BufRing {
    br.(tail := (br.tail + count) % U16)
  }

  function RecvWalk(inBufs: seq<Buf>, out: BufRing, bid: int, bytes: nat, count: nat): (w: Walk)
    requires |inBufs| == |out.bufs| && 0 <= bid < |inBufs| && AllPositive(inBufs)
    ensures |w.ring.bufs| == |out.bufs| && w.ring.tail == out.tail && 0 <= w.bid < |inBufs|
    decreases bytes
  {
    if bytes == 0 then Walk(out, bid, count, 0)
    else
      var buf := inBufs[bid];
      var len := Min(buf.len, bytes);
      RecvWalk(inBufs, Add(out, buf.addr, len, bid, count), (bid + 1) % |inBufs|, bytes - len, count + 1)
  }

  function SendWalk(outBufs: seq<Buf>, inBr: BufRing, bid: int, bytes: nat, count: nat, total: int, bufSize: int): (w: Walk)
    requires |outBufs| == |inBr.bufs| && 0 <= bid < |outBufs| && Covers(outBufs, bid, bytes)
    ensures |w.ring.bufs| == |inBr.bufs| && w.ring.tail == inBr.tail && 0 <= w.bid < |outBufs|
    decreases bytes
  {
    if bytes == 0 then Walk(inBr, bid, count, total)
    else
      var len := Min(outBufs[bid].len, bytes);
      SendWalk(outBufs, Add(inBr, bid * bufSize, bufSize, bid, count), (bid + 1) % |outBufs|,
               bytes - len, count + 1, (total + len) % U64, bufSize)
  }

  function SubmitReceive(u: User): Reply {
    if u.cd0.pendingRecv then Reply(u, AssertFails)
    else Reply(u.(cd0 := u.cd0.(pendingRecv := true), sq := u.sq + [RecvRequest]), Handled)
  }

  /** Whether prep_next_send issues a send for this direction; this is its return value. */
  predicate WillSend(d: ConnDir) {
    !d.pendingSend && d.outBuffers != 0
  }

  function SendBid(d: ConnDir): int {
    if d.sndNextBid == -1 then 0 else d.sndNextBid
  }

  function PrepNextSend0(u: User): User {
    if WillSend(u.cd0)
    then u.(cd0 := u.cd0.(pendingSend := true), sq := u.sq + [SendRequest(SendBid(u.cd0))])
    else u
  }

  function PrepNextSend1(u: User): User {
    if WillSend(u.cd1)
    then u.(cd1 := u.cd1.(pendingSend := true), sq := u.sq + [SendRequest(SendBid(u.cd1))])
    else u
  }

  function CloseCd0(u: User): User {
    u.(cd0 := u.cd0.(pendingShutdown := true), closing := u.closing || !u.cd0.pendingSend)
  }

  function CloseCd1(u: User): User {
    u.(cd1 := u.cd1.(pendingShutdown := true), closing := u.closing || !u.cd1.pendingSend)
  }

  predicate PendingShutdown(u: User) {
    u.cd0.pendingShutdown || u.cd1.pendingShutdown
  }

  function CloseIfPending(u: User): User {
    if PendingShutdown(u) then CloseCd1(u) else u
  }

  predicate ShouldShutdown(u: User) {
    PendingShutdown(u) && u.cd0.inBytes == u.cd1.outBytes
  }

  function StartClose(u: User): User {
    CloseCd0(PrepNextSend1(u))
  }

  function RecvEnobufs(u: User): Reply {
    if !u.cd0.pendingSend && WillSend(u.cd0) then Reply(PrepNextSend0(u), Handled)
    else SubmitReceive(u)
  }

  function RecvError(u: User, res: int): Reply {
    var u1 := u.(cd0 := u.cd0.(pendingRecv := false));
    if res != ENOBUFS then Reply(u1, Fatal) else RecvEnobufs(u1)
  }

  /** The state once the received buffers are queued for sending. */
  function Enqueue(u: User, c: Cqe): User
    requires Shape(u) && AllPositive(u.inBr.bufs) && 0 <= c.bid < |u.inBr.bufs| && c.res >= 0
  {
    var w := RecvWalk(u.inBr.bufs, u.outBr, c.bid, c.res, 0);
    u.(outBr := Advance(w.ring, w.count),
       cd1 := u.cd1.(outBuffers := u.cd1.outBuffers + w.count),
       cd0 := u.cd0.(rcvNextBid := w.bid))
  }

  predicate BidMismatch(expected: int, bid: int) {
    expected != -1 && bid != expected
  }

  function CountIn(u: User, res: int): User {
    if res == 0 then u else u.(cd0 := u.cd0.(inBytes := (u.cd0.inBytes + res) % U64))
  }

  /** Re-arm the receive when the request ended, and kick a send when enough is queued. */
  function AfterEnqueue(u: User, c: Cqe): Reply
    requires Shape(u)
  {
    var n := |u.inBr.bufs|;
    if c.more then
      Reply(CountIn(if !u.cd1.pendingSend && u.cd1.outBuffers >= n / 2 then PrepNextSend1(u) else u, c.res), Handled)
    else
      var u1 := u.(cd0 := u.cd0.(pendingRecv := false));
      if c.res == 0 then Reply(StartClose(u1), Handled)
      else
        var r := if u1.cd1.pendingSend then Reply(u1, Handled) else SubmitReceive(u1);
        if r.outcome != Handled then r
        else Reply(CountIn(PrepNextSend1(r.user), c.res), Handled)
  }

  /** What the source demands of a receive completion: a buffer id inside the ring. */
  ghost predicate RecvCallable(u: User, c: Cqe) {
    && Shape(u)
    && (c.res >= 0 && c.hasBuf ==> 0 <= c.bid < |u.inBr.bufs| && AllPositive(u.inBr.bufs))
  }

  function HandleRecv(u: User, c: Cqe): Reply
    requires RecvCallable(u, c)
  {
    if c.res < 0 then RecvError(u, c.res)
    else if !c.hasBuf then
      var u1 := u.(cd0 := u.cd0.(pendingRecv := false));
      if c.res != 0 then Reply(u1, Fatal) else Reply(StartClose(u1), Handled)
    else if BidMismatch(u.cd0.rcvNextBid, c.bid) then Reply(StartClose(u), Handled)
    else
      var u2 := Enqueue(u, c);
      if u2.cd1.outBuffers > |u.inBr.bufs| then Reply(u2, AssertFails)
      else AfterEnqueue(u2, c)
  }

  /** The state once the sent buffers are back in the receive ring. */
  function Recycle(u: User, c: Cqe, bufSize: int): User
    requires Shape(u) && 0 <= c.bid < |u.inBr.bufs| && c.res >= 0 && Covers(u.outBr.bufs, c.bid, c.res)
  {
    var w := SendWalk(u.outBr.bufs, u.inBr, c.bid, c.res, 0, u.cd1.outBytes, bufSize);
    var u1 := u.(inBr := Advance(w.ring, w.count), cd1 := u.cd1.(outBytes := w.total, sndNextBid := w.bid));
    var u2 := CloseIfPending(u1);
    u2.(cd1 := u2.cd1.(outBuffers := u2.cd1.outBuffers - w.count))
  }

  /** The end of a send request: issue the next send, or else re-arm the receive. */
  function SendDone(u: User): Reply {
    var u1 := u.(cd1 := u.cd1.(pendingSend := false));
    var r := if !WillSend(u1.cd1) && !u1.cd0.pendingRecv then SubmitReceive(u1)
             else Reply(PrepNextSend1(u1), Handled);
    if r.outcome != Handled then r else Reply(CloseIfPending(r.user), Handled)
  }

  ghost predicate SendCallable(u: User, c: Cqe) {
    && Shape(u)
    && (c.res >= 0 && c.hasBuf ==> 0 <= c.bid < |u.inBr.bufs| && Covers(u.outBr.bufs, c.bid, c.res))
  }

  function HandleSend(u: User, c: Cqe, bufSize: int): Reply
    requires SendCallable(u, c)
  {
    if c.res < 0 then
      Reply(u.(cd1 := u.cd1.(pendingSend := false)), if c.res != ENOBUFS then Fatal else Handled)
    else if !c.hasBuf then Reply(u, Fatal)
    else if BidMismatch(u.cd1.sndNextBid, c.bid) then Reply(CloseIfPending(u), Handled)
    else
      var u1 := Recycle(u, c, bufSize);
      if u1.cd1.outBuffers < 0 then Reply(u1, AssertFails)
      else if c.more then Reply(u1, Handled)
      else SendDone(u1)
  }
}
