// The proxy connection together with the kernel: every step either side can
// take. The kernel is bound only by its contract; the order of completions,
// the amounts received and sent, and the MORE flags are its free choice.
module ProxyMachine {
  import opened Arith
  import opened Bytes
  import opened ProxyModel

  /** A completion in the queue, with the number of ring entries the kernel used up for it. */
  datatype Posted = Posted(cqe: Cqe, count: nat)

  /** The kernel's side: its ring heads, armed requests, unhandled completions, memory and streams. */
  datatype Kernel = Kernel(
    inHead: int, outHead: int, recvArmed: bool, sendArmed: bool, eof: bool,
    recvCq: seq<Posted>, sendCq: seq<Posted>,
    mem: seq<Byte>, recvd: seq<Byte>, sent: seq<Byte>)

  datatype State = State(u: User, k: Kernel)

  datatype Event =
    | Submit
    | Receive(chunks: seq<seq<Byte>>, more: bool)
    | Eof(hasBuf: bool)
    | NoRecvBufs
    | Send(count: nat, more: bool)
    | NoSendBufs
    | RunHandleRecv
    | RunHandleSend

  /** Entries of a ring the kernel has not taken yet: the wrapped distance of its 16-bit counters. */
  function Available(br: BufRing, head: int): nat {
    (br.tail - head) % U16
  }

  function Entry(br: BufRing, index: int): Buf
    requires |br.bufs| > 0
  {
    br.bufs[index % |br.bufs|]
  }

  /** The chunks fill the entries from `head` on; only the last may leave room. */
  ghost predicate Fits(br: BufRing, head: int, chunks: seq<seq<Byte>>)
    requires |br.bufs| > 0
  {
    forall i :: 0 <= i < |chunks| ==>
      var len := Entry(br, head + i).len;
      0 < |chunks[i]| <= len && (i < |chunks| - 1 ==> |chunks[i]| == len)
  }

  function Store(mem: seq<Byte>, br: BufRing, head: int, chunks: seq<seq<Byte>>): seq<Byte>
    requires |br.bufs| > 0
    decreases |chunks|
  {
    if |chunks| == 0 then mem
    else Store(Splice(mem, Entry(br, head).addr, chunks[0]), br, head + 1, chunks[1..])
  }

  /** The bytes of `count` entries from `head` on, as the socket reads them. */
  function Gather(mem: seq<Byte>, br: BufRing, head: int, count: nat): seq<Byte>
    requires |br.bufs| > 0
    decreases count
  {
    if count == 0 then []
    else
      var e := Entry(br, head + count - 1);
      Gather(mem, br, head, count - 1) + (if e.len >= 0 then Block(mem, e.addr, e.len) else [])
  }

  ghost predicate Init(s: State, n: nat, bufSize: nat) {
    && 0 < n
    && s.u == SubmitReceive(NewUser(n, bufSize)).user
    && s.k == Kernel(0, 0, false, false, false, [], [], s.k.mem, [], [])
    && |s.k.mem| == n * bufSize
  }

  ghost predicate KernelSubmits(s: State, s': State) {
    && |s.u.sq| > 0
    && s'.u == s.u.(sq := s.u.sq[1..])
    && s'.k == if s.u.sq[0].RecvRequest? then s.k.(recvArmed := true) else s.k.(sendArmed := true)
  }

  ghost predicate KernelReceives(s: State, chunks: seq<seq<Byte>>, more: bool, s': State)
    requires Shape(s.u)
  {
    && s.k.recvArmed && !s.k.eof
    && 0 < |chunks| <= Available(s.u.inBr, s.k.inHead)
    && Fits(s.u.inBr, s.k.inHead, chunks)
    && s'.u == s.u
    && s'.k == s.k.(
         inHead := (s.k.inHead + |chunks|) % U16, recvArmed := more,
         mem := Store(s.k.mem, s.u.inBr, s.k.inHead, chunks), recvd := s.k.recvd + Cat(chunks),
         recvCq := s.k.recvCq +
           [Posted(Cqe(|Cat(chunks)|, Entry(s.u.inBr, s.k.inHead).bid, true, more), |chunks|)])
  }

  /** End of stream; a completion may name the buffer it did not use. */
  ghost predicate KernelEof(s: State, hasBuf: bool, s': State)
    requires Shape(s.u)
  {
    && s.k.recvArmed
    && (hasBuf ==> Available(s.u.inBr, s.k.inHead) > 0)
    && s'.u == s.u
    && s'.k == s.k.(recvArmed := false, eof := true, recvCq := s.k.recvCq +
         [Posted(Cqe(0, if hasBuf then Entry(s.u.inBr, s.k.inHead).bid else 0, hasBuf, false), 0)])
  }

  ghost predicate KernelOutOfBuffers(s: State, s': State) {
    && s.k.recvArmed && Available(s.u.inBr, s.k.inHead) == 0
    && s'.u == s.u
    && s'.k == s.k.(recvArmed := false,
                    recvCq := s.k.recvCq + [Posted(Cqe(ENOBUFS, 0, false, false), 0)])
  }

  /** A send takes a non-empty prefix of the outgoing ring; it goes on only while entries remain. */
  ghost predicate KernelSends(s: State, count: nat, more: bool, s': State)
    requires Shape(s.u)
  {
    && s.k.sendArmed
    && 0 < count <= Available(s.u.outBr, s.k.outHead)
    && (more ==> count < Available(s.u.outBr, s.k.outHead))
    && s'.u == s.u
    && var data := Gather(s.k.mem, s.u.outBr, s.k.outHead, count);
       s'.k == s.k.(
         outHead := (s.k.outHead + count) % U16, sendArmed := more, sent := s.k.sent + data,
         sendCq := s.k.sendCq +
           [Posted(Cqe(|data|, Entry(s.u.outBr, s.k.outHead).bid, true, more), count)])
  }

  ghost predicate KernelHasNothingToSend(s: State, s': State) {
    && s.k.sendArmed && Available(s.u.outBr, s.k.outHead) == 0
    && s'.u == s.u
    && s'.k == s.k.(sendArmed := false,
                    sendCq := s.k.sendCq + [Posted(Cqe(ENOBUFS, 0, false, false), 0)])
  }

  ghost predicate UserHandlesRecv(s: State, s': State) {
    && |s.k.recvCq| > 0
    && RecvCallable(s.u, s.k.recvCq[0].cqe)
    && HandleRecv(s.u, s.k.recvCq[0].cqe) == Reply(s'.u, Handled)
    && s'.k == s.k.(recvCq := s.k.recvCq[1..])
  }

  ghost predicate UserHandlesSend(s: State, bufSize: nat, s': State) {
    && |s.k.sendCq| > 0
    && SendCallable(s.u, s.k.sendCq[0].cqe)
    && HandleSend(s.u, s.k.sendCq[0].cqe, bufSize) == Reply(s'.u, Handled)
    && s'.k == s.k.(sendCq := s.k.sendCq[1..])
  }

  ghost predicate Next(s: State, e: Event, bufSize: nat, s': State)
  {
    Shape(s.u) &&
    match e
    case Submit => KernelSubmits(s, s')
    case Receive(chunks, more) => KernelReceives(s, chunks, more, s')
    case Eof(hasBuf) => KernelEof(s, hasBuf, s')
    case NoRecvBufs => KernelOutOfBuffers(s, s')
    case Send(count, more) => KernelSends(s, count, more, s')
    case NoSendBufs => KernelHasNothingToSend(s, s')
    case RunHandleRecv => UserHandlesRecv(s, s')
    case RunHandleSend => UserHandlesSend(s, bufSize, s')
  }

  /** A run: states[0] is initial and events[i] leads from states[i] to states[i+1]. */
  ghost predicate Run(states: seq<State>, events: seq<Event>, n: nat, bufSize: nat) {
    && |states| == |events| + 1
    && Init(states[0], n, bufSize)
    && forall i :: 0 <= i < |events| ==> Next(states[i], events[i], bufSize, states[i + 1])
  }

  /** The setup the program accepts: a power-of-two number of buffers that a 16-bit tail can count. */
  ghost predicate Config(n: nat, bufSize: nat) {
    && (exists k: nat :: k <= 15 && n == Pow2(k))
    && 0 < bufSize < 0x8000_0000
  }
}
