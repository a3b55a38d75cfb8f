// The UDP echo server of examples/io_uring-udp.c: one multishot receive fills
// buffers from a provided-buffer ring, each datagram is sent back out of its
// own buffer, and the buffer returns to the ring when the send completes.
module UdpEcho {
  import opened Arith
  import opened RingIndex

  const BUFFERS: nat := 1024
  const RECV_DATA: nat := BUFFERS + 1
  const ENOBUFS := -105

  /** A received datagram with its recvmsg header, as far as the handler tells datagrams apart. */
  datatype Packet = Malformed | LongName(name: int) | Truncated(name: int) | Whole(name: int, payload: int)

  /** ctx->send[idx]: a message whose name and payload lie in the buffer it points to. */
  datatype SendCtx = Unset | Msg(buffer: nat)

  datatype Request = MultishotRecv | SendMsg(idx: nat)

  /** What the program stores in a request and finds in its completions. */
  function UserData(r: Request): nat {
    match r
    case MultishotRecv => RECV_DATA
    case SendMsg(idx) => idx
  }

  datatype Cqe = Cqe(userData: nat, res: int, hasBuf: bool, bid: nat, more: bool)

  /** What the handlers write: the buffer ring, the message slots, the requests given to the ring. */
  datatype User = User(ring: seq<nat>, tail: int, sends: seq<SendCtx>, pending: seq<Request>)

  ghost predicate Shape(u: User) {
    |u.ring| == |u.sends| == BUFFERS && 0 <= u.tail < U16
  }

  // ---------- the handlers ----------

  /** setup_buffer_pool, then the first add_recv. */
  function Setup(): User {
    User(seq(BUFFERS, i => i), BUFFERS, seq(BUFFERS, _ => Unset), [MultishotRecv])
  }

  function AddRecvTo(u: User, sqeOk: bool): (r: (User, int)) {
    if sqeOk then (u.(pending := u.pending + [MultishotRecv]), 0) else (u, -1)
  }

  function Recycle(u: User, idx: nat): User
    requires Shape(u)
  {
    u.(ring := u.ring[Slot(u.tail, BUFFERS, false) := idx], tail := (u.tail + 1) % U16)
  }

  /** process_cqe_recv after the re-arming. */
  function Receive(u: User, c: Cqe, packet: Packet, sqeOk: bool): (r: (User, int))
    requires Shape(u) && (c.hasBuf ==> c.bid < BUFFERS)
  {
    if c.res == ENOBUFS then (u, 0)
    else if !c.hasBuf || c.res < 0 || packet.Malformed? then (u, -1)
    else if packet.LongName? || packet.Truncated? then (Recycle(u, c.bid), 0)
    else if !sqeOk then (u, -1)
    else (u.(sends := u.sends[c.bid := Msg(c.bid)], pending := u.pending + [SendMsg(c.bid)]), 0)
  }

  /** process_cqe; `packet` is the content of the buffer, armOk and sendOk whether get_sqe succeeds. */
  function Process(u: User, c: Cqe, packet: Packet, armOk: bool, sendOk: bool): (r: (User, int))
    requires Shape(u) && (c.userData >= BUFFERS && c.hasBuf ==> c.bid < BUFFERS)
  {
    if c.userData < BUFFERS then (Recycle(u, c.userData), 0)
    else if !c.more && !armOk then (u, -1)
    else
      var armed := if c.more then u else AddRecvTo(u, armOk).0;
      Receive(armed, c, packet, sendOk)
  }

  // ---------- the server as it runs ----------

  class Server {
    const ring: array<nat>
    const sends: array<SendCtx>
    var tail: int
    var pending: seq<Request>

    ghost function View(): User
      reads this, ring, sends
    {
      User(ring[..], tail, sends[..], pending)
    }

    /** setup_buffer_pool; `i` starts the buffers in order. */
    constructor ()
      ensures View() == Setup() && fresh(ring) && fresh(sends)
    {
      ring, sends := new nat[BUFFERS], new SendCtx[BUFFERS](_ => Unset);
      tail, pending := 0, [];
      new;
      for i := 0 to BUFFERS
        invariant forall j :: 0 <= j < i ==> ring[j] == j
        invariant forall j :: 0 <= j < BUFFERS ==> sends[j] == Unset
        invariant tail == 0 && pending == []
      {
        BufRingAdd(i, i);
      }
      assert ring[..] == Setup().ring && sends[..] == Setup().sends;
      tail := (tail + BUFFERS) % U16;
      var ret := AddRecv(true);
    }

    method BufRingAdd(bid: nat, offset: nat)
      requires ring.Length == BUFFERS
      modifies ring
      ensures ring[..] == old(ring[..])[(tail + offset) % BUFFERS := bid]
    {
      ring[(tail + offset) % BUFFERS] := bid;
    }

    method AddRecv(sqeOk: bool) returns (ret: int)
      modifies this`pending
      ensures (View(), ret) == AddRecvTo(old(View()), sqeOk)
    {
      if !sqeOk {
        return -1;
      }
      pending := pending + [MultishotRecv];
      ret := 0;
    }

    method RecycleBuffer(idx: nat)
      requires Shape(View())
      modifies this`tail, ring
      ensures Shape(View()) && View() == Recycle(old(View()), idx)
    {
      BufRingAdd(idx, 0);
      tail := (tail + 1) % U16;
    }

    method ProcessCqeSend(c: Cqe) returns (ret: int)
      requires Shape(View()) && c.userData < BUFFERS
      modifies this`tail, ring
      ensures Shape(View()) && View() == Recycle(old(View()), c.userData) && ret == 0
    {
      RecycleBuffer(c.userData);
      ret := 0;
    }

    method ProcessCqeRecv(c: Cqe, packet: Packet, armOk: bool, sendOk: bool) returns (ret: int)
      requires Shape(View()) && c.userData >= BUFFERS && (c.hasBuf ==> c.bid < BUFFERS)
      modifies this, ring, sends
      ensures Shape(View()) && (View(), ret) == Process(old(View()), c, packet, armOk, sendOk)
    {
      if !c.more {
        ret := AddRecv(armOk);
        if ret != 0 {
          return;
        }
      }
      if c.res == ENOBUFS {
        return 0;
      }
      if !c.hasBuf || c.res < 0 {
        return -1;
      }
      var idx := c.bid;
      match packet
      case Malformed => return -1;
      case LongName(_) =>
        RecycleBuffer(idx);
        return 0;
      case Truncated(_) =>
        RecycleBuffer(idx);
        return 0;
      case Whole(_, _) =>
        if !sendOk {
          return -1;
        }
        sends[idx] := Msg(idx);
        pending := pending + [SendMsg(idx)];
        return 0;
    }

    method ProcessCqe(c: Cqe, packet: Packet, armOk: bool, sendOk: bool) returns (ret: int)
      requires Shape(View()) && (c.userData >= BUFFERS && c.hasBuf ==> c.bid < BUFFERS)
      modifies this, ring, sends
      ensures Shape(View()) && (View(), ret) == Process(old(View()), c, packet, armOk, sendOk)
    {
      if c.userData < BUFFERS {
        ret := ProcessCqeSend(c);
      } else {
        ret := ProcessCqeRecv(c, packet, armOk, sendOk);
      }
    }
  }
}
