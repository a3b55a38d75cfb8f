// Every run of the UDP echo server together with the kernel: where each buffer
// is, and what became of each datagram.
module UdpEchoRun {
  import opened Arith
  import opened RingIndex
  import opened UdpEcho

  /**
   * The server, the kernel's ring head, the buffers, unhandled completions with the requests that
   * posted them, and the history.
   */
  datatype World = World(
    u: User, head: int, memory: seq<Packet>, cq: seq<Cqe>, posters: seq<Request>,
    received: seq<Packet>, echoed: seq<Packet>, dropped: seq<Packet>)

  datatype Action =
    | Deliver(i: nat, packet: Packet, len: nat, more: bool)
    | RecvFails(i: nat, res: int)
    | SendDone(i: nat, res: int)
    | Handle(armOk: bool, sendOk: bool)

  function Available(w: World): nat {
    (w.u.tail - w.head) % U16
  }

  function Without<T>(s: seq<T>, i: nat): seq<T>
    requires i < |s|
  {
    s[..i] + s[i + 1..]
  }

  // ---------- where the buffers are ----------

  /** The buffer a completion still holds on to. */
  function BidOf(c: Cqe): seq<nat> {
    if c.userData < BUFFERS then [c.userData] else DataOf(c)
  }

  /** The buffer whose datagram a completion announces. */
  function DataOf(c: Cqe): seq<nat> {
    if c.userData >= BUFFERS && c.hasBuf then [c.bid] else []
  }

  function CqBids(cq: seq<Cqe>): seq<nat> {
    if cq == [] then [] else BidOf(cq[0]) + CqBids(cq[1..])
  }

  function CqData(cq: seq<Cqe>): seq<nat> {
    if cq == [] then [] else DataOf(cq[0]) + CqData(cq[1..])
  }

  function SendOf(r: Request): seq<nat> {
    if r.SendMsg? then [r.idx] else []
  }

  function SendIds(pending: seq<Request>): seq<nat> {
    if pending == [] then [] else SendOf(pending[0]) + SendIds(pending[1..])
  }

  function AllIds(n: nat): seq<nat> {
    if n == 0 then [] else AllIds(n - 1) + [n - 1]
  }

  /** What the kernel can still take, in ring order. */
  function RingBids(ring: seq<nat>, tail: int, head: int): (r: seq<nat>)
    requires |ring| == BUFFERS
    ensures |r| == (tail - head) % U16
  {
    Range(ring, BUFFERS, false, head, (tail - head) % U16)
  }

  function Contents(memory: seq<Packet>, ids: seq<nat>): (r: seq<Packet>)
    requires AllBelow(ids, |memory|)
  {
    seq(|ids|, i requires 0 <= i < |ids| => memory[ids[i]])
  }

  ghost predicate AllBelow(ids: seq<nat>, n: nat) {
    forall i :: 0 <= i < |ids| ==> ids[i] < n
  }

  /** Multishot receives given to the ring and not ended, and completions that ended one, unhandled. */
  function Armed(pending: seq<Request>): nat {
    if pending == [] then 0 else (if pending[0].MultishotRecv? then 1 else 0) + Armed(pending[1..])
  }

  function Ended(cq: seq<Cqe>): nat {
    if cq == [] then 0 else (if cq[0].userData >= BUFFERS && !cq[0].more then 1 else 0) + Ended(cq[1..])
  }

  // ---------- steps ----------

  /** The kernel writes a datagram to the buffer at its head of the ring. */
  ghost predicate Delivers(w: World, i: nat, packet: Packet, len: nat, more: bool, w': World)
    requires Shape(w.u) && |w.memory| == BUFFERS
  {
    && i < |w.u.pending| && w.u.pending[i].MultishotRecv? && Available(w) > 0
    && HeadBid(w) < BUFFERS
    && w' == w.(
         head := (w.head + 1) % U16, memory := w.memory[HeadBid(w) := packet],
         u := w.u.(pending := if more then w.u.pending else Without(w.u.pending, i)),
         cq := w.cq + [Cqe(UserData(w.u.pending[i]), len, true, HeadBid(w), more)],
         posters := w.posters + [w.u.pending[i]], received := w.received + [packet])
  }

  function HeadBid(w: World): nat
    requires Shape(w.u)
  {
    w.u.ring[Slot(w.head, BUFFERS, false)]
  }

  /** A multishot receive ends with an error, in particular when the ring is empty. */
  ghost predicate Fails(w: World, i: nat, res: int, w': World) {
    && i < |w.u.pending| && w.u.pending[i].MultishotRecv? && res < 0
    && w' == w.(u := w.u.(pending := Without(w.u.pending, i)),
                cq := w.cq + [Cqe(UserData(w.u.pending[i]), res, false, 0, false)],
                posters := w.posters + [w.u.pending[i]])
  }

  /** A send transmits what its message slot points to and completes, with any result. */
  ghost predicate Sends(w: World, i: nat, res: int, w': World)
    requires Shape(w.u) && |w.memory| == BUFFERS
  {
    && i < |w.u.pending| && w.u.pending[i].SendMsg? && w.u.pending[i].idx < BUFFERS
    && w.u.sends[w.u.pending[i].idx].Msg? && w.u.sends[w.u.pending[i].idx].buffer < BUFFERS
    && w' == w.(u := w.u.(pending := Without(w.u.pending, i)),
                cq := w.cq + [Cqe(UserData(w.u.pending[i]), res, false, 0, false)],
                posters := w.posters + [w.u.pending[i]],
                echoed := w.echoed + [w.memory[w.u.sends[w.u.pending[i].idx].buffer]])
  }

  /** The datagram a completion announces, as the handler reads it. */
  function PacketOf(memory: seq<Packet>, c: Cqe): Packet
    requires |memory| == BUFFERS && CqeOk(c)
  {
    if DataOf(c) != [] then memory[c.bid] else Malformed
  }

  predicate Recycled(packet: Packet) {
    packet.LongName? || packet.Truncated?
  }

  /** process_cqe on the oldest completion, in a run that goes on. */
  ghost predicate Handles(w: World, armOk: bool, sendOk: bool, w': World)
    requires Shape(w.u) && |w.memory| == BUFFERS && CqOk(w.cq)
  {
    && w.cq != [] && w.posters != []
    && Process(w.u, w.cq[0], PacketOf(w.memory, w.cq[0]), armOk, sendOk).1 == 0
    && w' == w.(u := Process(w.u, w.cq[0], PacketOf(w.memory, w.cq[0]), armOk, sendOk).0, cq := w.cq[1..],
                posters := w.posters[1..],
                dropped := w.dropped +
                  if Recycled(PacketOf(w.memory, w.cq[0])) then [PacketOf(w.memory, w.cq[0])] else [])
  }

  ghost predicate Next(w: World, a: Action, w': World)
    requires Shape(w.u) && |w.memory| == BUFFERS && CqOk(w.cq)
  {
    match a
    case Deliver(i, packet, len, more) => Delivers(w, i, packet, len, more, w')
    case RecvFails(i, res) => Fails(w, i, res, w')
    case SendDone(i, res) => Sends(w, i, res, w')
    case Handle(armOk, sendOk) => Handles(w, armOk, sendOk, w')
  }

  // ---------- the invariant ----------

  ghost predicate CqeOk(c: Cqe) {
    c.userData < BUFFERS || (c.userData == RECV_DATA && (c.hasBuf ==> c.res >= 0 && c.bid < BUFFERS))
  }

  ghost predicate CqOk(cq: seq<Cqe>) {
    forall i :: 0 <= i < |cq| ==> CqeOk(cq[i])
  }

  /** Every buffer is in exactly one of: the ring, an unhandled completion, a send under way. */
  ghost predicate Conserved(ring: seq<nat>, held: seq<nat>, sending: seq<nat>) {
    multiset(ring) + multiset(held) + multiset(sending) == multiset(AllIds(BUFFERS))
  }

  /** A send under way uses its own message slot, pointing to its own buffer. */
  ghost predicate SlotsOk(sends: seq<SendCtx>, sending: seq<nat>) {
    forall id :: id in sending ==> id < |sends| && sends[id] == Msg(id)
  }

  /** Every datagram received was echoed, was dropped, or still lies in its buffer. */
  ghost predicate Accounted(memory: seq<Packet>, arrived: seq<nat>, sending: seq<nat>,
                            received: seq<Packet>, echoed: seq<Packet>, dropped: seq<Packet>)
    requires AllBelow(arrived, |memory|) && AllBelow(sending, |memory|)
  {
    multiset(received) == multiset(echoed) + multiset(dropped)
                        + multiset(Contents(memory, arrived)) + multiset(Contents(memory, sending))
  }

  ghost predicate Well(w: World) {
    Shape(w.u) && |w.memory| == BUFFERS && 0 <= w.head < U16 && CqOk(w.cq)
  }

  ghost predicate Places(w: World)
    requires Shape(w.u)
  {
    && Conserved(RingBids(w.u.ring, w.u.tail, w.head), CqBids(w.cq), SendIds(w.u.pending))
    && SlotsOk(w.u.sends, SendIds(w.u.pending))
  }

  /** Exactly one multishot receive is given to the ring, or is about to be renewed. */
  ghost predicate OneReceive(w: World) {
    Armed(w.u.pending) + Ended(w.cq) == 1
  }

  ghost predicate Datagrams(w: World)
    requires |w.memory| == BUFFERS
  {
    && AllBelow(CqData(w.cq), BUFFERS) && AllBelow(SendIds(w.u.pending), BUFFERS)
    && Accounted(w.memory, CqData(w.cq), SendIds(w.u.pending), w.received, w.echoed, w.dropped)
  }

  ghost predicate Inv(w: World)
    ensures Inv(w) ==> Well(w)
  {
    Well(w) && Places(w) && OneReceive(w) && Datagrams(w)
  }

  // ---------- sequences of requests and completions ----------

  lemma {:induction false} CqBidsSnoc(cq: seq<Cqe>, c: Cqe)
    ensures CqBids(cq + [c]) == CqBids(cq) + BidOf(c)
  {
    hide BidOf;
    if cq == [] {
      assert cq + [c] == [c];
    } else {
      CqBidsSnoc(cq[1..], c);
      assert (cq + [c])[1..] == cq[1..] + [c];
    }
  }

  lemma {:induction false} CqDataSnoc(cq: seq<Cqe>, c: Cqe)
    ensures CqData(cq + [c]) == CqData(cq) + DataOf(c)
  {
    hide DataOf;
    if cq == [] {
      assert cq + [c] == [c];
    } else {
      CqDataSnoc(cq[1..], c);
      assert (cq + [c])[1..] == cq[1..] + [c];
    }
  }

  lemma CqOkSnoc(cq: seq<Cqe>, c: Cqe)
    requires CqOk(cq) && CqeOk(c)
    ensures CqOk(cq + [c])
  {
  }

  lemma {:induction false} EndedSnoc(cq: seq<Cqe>, c: Cqe)
    ensures Ended(cq + [c]) == Ended(cq) + if c.userData >= BUFFERS && !c.more then 1 else 0
  {
    if cq == [] {
      assert cq + [c] == [c];
    } else {
      EndedSnoc(cq[1..], c);
      assert (cq + [c])[1..] == cq[1..] + [c];
    }
  }

  lemma SendIdsFirst(pending: seq<Request>)
    ensures SendIds(pending) == if pending == [] then [] else SendOf(pending[0]) + SendIds(pending[1..])
  {
  }

  lemma Associative(x: seq<nat>, y: seq<nat>, z: seq<nat>)
    ensures x + (y + z) == x + y + z
  {
  }

  lemma {:induction false} SendIdsAppend(a: seq<Request>, b: seq<Request>)
    ensures SendIds(a + b) == SendIds(a) + SendIds(b)
  {
    hide SendOf, SendIds;
    SendIdsFirst(a);
    if a == [] {
      assert a + b == b;
    } else {
      SendIdsAppend(a[1..], b);
      SendIdsFirst(a + b);
      assert (a + b)[1..] == a[1..] + b;
      Associative(SendOf(a[0]), SendIds(a[1..]), SendIds(b));
    }
  }

  lemma {:induction false} ArmedAppend(a: seq<Request>, b: seq<Request>)
    ensures Armed(a + b) == Armed(a) + Armed(b)
  {
    if a == [] {
      assert a + b == b;
    } else {
      ArmedAppend(a[1..], b);
      assert (a + b)[1..] == a[1..] + b;
    }
  }

  lemma PendingAppend(a: seq<Request>, b: seq<Request>)
    ensures SendIds(a + b) == SendIds(a) + SendIds(b)
    ensures Armed(a + b) == Armed(a) + Armed(b)
  {
    SendIdsAppend(a, b);
    ArmedAppend(a, b);
  }

  lemma PendingSnoc(a: seq<Request>, r: Request)
    ensures SendIds(a + [r]) == SendIds(a) + SendOf(r)
    ensures Armed(a + [r]) == Armed(a) + if r.MultishotRecv? then 1 else 0
  {
    PendingAppend(a, [r]);
    assert [r][1..] == [];
  }

  /** Taking request i out of the pending ones. */
  lemma PendingWithout(pending: seq<Request>, i: nat) returns (x: seq<nat>, y: seq<nat>)
    requires i < |pending|
    ensures SendIds(pending) == x + SendOf(pending[i]) + y
    ensures SendIds(Without(pending, i)) == x + y
    ensures Armed(pending) == Armed(Without(pending, i)) + if pending[i].MultishotRecv? then 1 else 0
  {
    x, y := SendIds(pending[..i]), SendIds(pending[i + 1..]);
    assert pending == pending[..i] + [pending[i]] + pending[i + 1..];
    PendingAppend(pending[..i] + [pending[i]], pending[i + 1..]);
    PendingSnoc(pending[..i], pending[i]);
    PendingAppend(pending[..i], pending[i + 1..]);
  }

  /** Taking a receive out leaves the sends alone. */
  lemma RecvWithout(pending: seq<Request>, i: nat)
    requires i < |pending| && pending[i].MultishotRecv?
    ensures SendIds(Without(pending, i)) == SendIds(pending)
    ensures Armed(pending) == Armed(Without(pending, i)) + 1
  {
    var x, y := PendingWithout(pending, i);
    assert x + [] + y == x + y;
  }

  lemma ContentsAppend(memory: seq<Packet>, a: seq<nat>, b: seq<nat>)
    requires AllBelow(a + b, |memory|)
    ensures AllBelow(a, |memory|) && AllBelow(b, |memory|)
    ensures Contents(memory, a + b) == Contents(memory, a) + Contents(memory, b)
  {
    forall i | 0 <= i < |a|
      ensures a[i] < |memory|
    {
      assert (a + b)[i] == a[i];
    }
    forall i | 0 <= i < |b|
      ensures b[i] < |memory|
    {
      assert (a + b)[|a| + i] == b[i];
    }
  }

  /** A write to a buffer that is not among these changes nothing here. */
  lemma ContentsElsewhere(memory: seq<Packet>, ids: seq<nat>, b: nat, packet: Packet)
    requires AllBelow(ids, |memory|) && b < |memory| && b !in ids
    ensures Contents(memory[b := packet], ids) == Contents(memory, ids)
  {
  }

  // ---------- exactly one place ----------

  lemma {:induction false} IdsOnce(n: nat, b: nat)
    ensures multiset(AllIds(n))[b] == if b < n then 1 else 0
    ensures |AllIds(n)| == n
  {
    if n > 0 {
      IdsOnce(n - 1, b);
    }
  }

  /** Each buffer is in one place, once. */
  lemma OnePlace(ring: seq<nat>, held: seq<nat>, sending: seq<nat>, b: nat)
    requires Conserved(ring, held, sending)
    ensures multiset(ring)[b] + multiset(held)[b] + multiset(sending)[b] == if b < BUFFERS then 1 else 0
    ensures |ring| + |held| + |sending| == BUFFERS
  {
    IdsOnce(BUFFERS, b);
    assert |multiset(ring) + multiset(held) + multiset(sending)| == |ring| + |held| + |sending|;
    assert |multiset(AllIds(BUFFERS))| == BUFFERS;
  }

  lemma OnlyInRing(ring: seq<nat>, held: seq<nat>, sending: seq<nat>, b: nat)
    requires Conserved(ring, held, sending) && b in ring
    ensures b < BUFFERS && b !in held && b !in sending
  {
    OnePlace(ring, held, sending, b);
    assert multiset(ring)[b] > 0;
  }

  lemma OnlyHeld(ring: seq<nat>, held: seq<nat>, sending: seq<nat>, b: nat)
    requires Conserved(ring, held, sending) && b in held
    ensures b < BUFFERS && b !in ring && b !in sending && |ring| < BUFFERS
  {
    OnePlace(ring, held, sending, b);
    assert multiset(held)[b] > 0;
  }

  // ---------- the ring ----------

  /** The kernel takes the first buffer. */
  lemma RingTake(ring: seq<nat>, tail: int, head: int)
    requires |ring| == BUFFERS && 0 <= head < U16 && 0 <= tail < U16 && (tail - head) % U16 > 0
    ensures RingBids(ring, tail, head) == [ring[Slot(head, BUFFERS, false)]] + RingBids(ring, tail, (head + 1) % U16)
  {
    hide Slot, Range;
    var d := (tail - head) % U16;
    Offset(head, tail, U16);
    ConsumeDistance(head, tail, d, U16);
    RangeJoins(ring, BUFFERS, false, head, 1, d - 1, U16);
    RangeOne(ring, BUFFERS, false, head);
  }

  /** A recycled buffer goes behind the last one and overwrites no slot the kernel has yet to read. */
  lemma RingPut(ring: seq<nat>, tail: int, head: int, id: nat)
    requires |ring| == BUFFERS && 0 <= head < U16 && 0 <= tail < U16 && (tail - head) % U16 < BUFFERS
    ensures RingBids(ring[Slot(tail, BUFFERS, false) := id], (tail + 1) % U16, head) == RingBids(ring, tail, head) + [id]
  {
    hide Slot, Range;
    var d := (tail - head) % U16;
    Offset(head, tail, U16);
    DistanceGrows(head, tail, d, U16);
    SlotWraps(head + d, 0, BUFFERS, false, U16);
    RangeGrows(ring, BUFFERS, false, head, d, id);
  }

  // ---------- a buffer changes place ----------

  lemma RingToHeld(b: nat, ring: seq<nat>, held: seq<nat>, sending: seq<nat>)
    requires Conserved([b] + ring, held, sending)
    ensures Conserved(ring, held + [b], sending)
  {
  }

  lemma SendingToHeld(ring: seq<nat>, held: seq<nat>, x: seq<nat>, id: nat, y: seq<nat>)
    requires Conserved(ring, held, x + [id] + y)
    ensures Conserved(ring, held + [id], x + y)
  {
  }

  lemma HeldToRing(ring: seq<nat>, id: nat, held: seq<nat>, sending: seq<nat>)
    requires Conserved(ring, [id] + held, sending)
    ensures Conserved(ring + [id], held, sending)
  {
  }

  lemma HeldToSending(ring: seq<nat>, id: nat, held: seq<nat>, sending: seq<nat>)
    requires Conserved(ring, [id] + held, sending)
    ensures Conserved(ring, held, sending + [id])
  {
  }

  // ---------- a datagram changes place ----------

  lemma Arrives(memory: seq<Packet>, arrived: seq<nat>, sending: seq<nat>,
                received: seq<Packet>, echoed: seq<Packet>, dropped: seq<Packet>, b: nat, packet: Packet)
    requires AllBelow(arrived, |memory|) && AllBelow(sending, |memory|) && b < |memory|
    requires b !in arrived && b !in sending
    requires Accounted(memory, arrived, sending, received, echoed, dropped)
    ensures AllBelow(arrived + [b], |memory|)
    ensures Accounted(memory[b := packet], arrived + [b], sending, received + [packet], echoed, dropped)
  {
    ContentsElsewhere(memory, arrived, b, packet);
    ContentsElsewhere(memory, sending, b, packet);
    ContentsAppend(memory[b := packet], arrived, [b]);
    assert Contents(memory[b := packet], [b]) == [packet];
  }

  lemma Leaves(memory: seq<Packet>, arrived: seq<nat>, x: seq<nat>, id: nat, y: seq<nat>,
               received: seq<Packet>, echoed: seq<Packet>, dropped: seq<Packet>)
    requires AllBelow(arrived, |memory|) && AllBelow(x + [id] + y, |memory|)
    requires Accounted(memory, arrived, x + [id] + y, received, echoed, dropped)
    ensures id < |memory| && AllBelow(x + y, |memory|)
    ensures Accounted(memory, arrived, x + y, received, echoed + [memory[id]], dropped)
  {
    ContentsAppend(memory, x + [id], y);
    ContentsAppend(memory, x, [id]);
    assert [id][0] == id;
    assert Contents(memory, [id]) == [memory[id]];
    assert AllBelow(x + y, |memory|);
    ContentsAppend(memory, x, y);
  }

  lemma Drops(memory: seq<Packet>, id: nat, arrived: seq<nat>, sending: seq<nat>,
              received: seq<Packet>, echoed: seq<Packet>, dropped: seq<Packet>)
    requires AllBelow([id] + arrived, |memory|) && AllBelow(sending, |memory|)
    requires Accounted(memory, [id] + arrived, sending, received, echoed, dropped)
    ensures id < |memory| && AllBelow(arrived, |memory|)
    ensures Accounted(memory, arrived, sending, received, echoed, dropped + [memory[id]])
  {
    ContentsAppend(memory, [id], arrived);
    assert [id][0] == id;
    assert Contents(memory, [id]) == [memory[id]];
  }

  lemma Replies(memory: seq<Packet>, id: nat, arrived: seq<nat>, sending: seq<nat>,
                received: seq<Packet>, echoed: seq<Packet>, dropped: seq<Packet>)
    requires AllBelow([id] + arrived, |memory|) && AllBelow(sending, |memory|)
    requires Accounted(memory, [id] + arrived, sending, received, echoed, dropped)
    ensures id < |memory| && AllBelow(arrived, |memory|) && AllBelow(sending + [id], |memory|)
    ensures Accounted(memory, arrived, sending + [id], received, echoed, dropped)
  {
    ContentsAppend(memory, [id], arrived);
    assert [id][0] == id;
    assert AllBelow(sending + [id], |memory|);
    ContentsAppend(memory, sending, [id]);
  }

  lemma {:induction false} DataIsHeld(cq: seq<Cqe>, b: nat)
    requires b in CqData(cq)
    ensures b in CqBids(cq)
  {
    if b !in DataOf(cq[0]) {
      DataIsHeld(cq[1..], b);
    }
  }

  // ---------- the steps keep the invariant ----------

  lemma DeliverPlaces(w: World, i: nat, packet: Packet, len: nat, more: bool, w': World)
    requires Well(w) && Places(w) && Delivers(w, i, packet, len, more, w')
    ensures Well(w') && Places(w')
  {
    hide Conserved, CqBids, SendIds, RingBids, CqOk, Slot, SlotsOk;
    var b, c := HeadBid(w), Cqe(RECV_DATA, len, true, HeadBid(w), more);
    CqOkSnoc(w.cq, c);
    CqBidsSnoc(w.cq, c);
    RecvWithout(w.u.pending, i);
    RingTake(w.u.ring, w.u.tail, w.head);
    RingToHeld(b, RingBids(w.u.ring, w.u.tail, w'.head), CqBids(w.cq), SendIds(w.u.pending));
  }

  lemma DeliverArms(w: World, i: nat, packet: Packet, len: nat, more: bool, w': World)
    requires Well(w) && OneReceive(w) && Delivers(w, i, packet, len, more, w')
    ensures OneReceive(w')
  {
    hide Armed, Ended, CqOk, Slot;
    EndedSnoc(w.cq, Cqe(RECV_DATA, len, true, HeadBid(w), more));
    RecvWithout(w.u.pending, i);
  }

  /** The buffer the kernel takes is in no completion and no send. */
  lemma HeadIsFree(w: World)
    requires Well(w) && Places(w) && Available(w) > 0
    ensures HeadBid(w) < BUFFERS && HeadBid(w) !in CqData(w.cq) && HeadBid(w) !in SendIds(w.u.pending)
  {
    hide Conserved, CqBids, CqData, SendIds, RingBids, Slot, SlotsOk, CqOk;
    var ring := RingBids(w.u.ring, w.u.tail, w.head);
    RingTake(w.u.ring, w.u.tail, w.head);
    assert ring[0] == HeadBid(w);
    OnlyInRing(ring, CqBids(w.cq), SendIds(w.u.pending), HeadBid(w));
    if HeadBid(w) in CqData(w.cq) {
      DataIsHeld(w.cq, HeadBid(w));
    }
  }

  lemma DeliverAccounts(w: World, i: nat, packet: Packet, len: nat, more: bool, w': World)
    requires Well(w) && Datagrams(w) && Delivers(w, i, packet, len, more, w')
    requires HeadBid(w) !in CqData(w.cq) && HeadBid(w) !in SendIds(w.u.pending)
    ensures |w'.memory| == BUFFERS && Datagrams(w')
  {
    hide Accounted, AllBelow, Contents, CqData, SendIds, CqOk, Slot;
    CqDataSnoc(w.cq, Cqe(RECV_DATA, len, true, HeadBid(w), more));
    RecvWithout(w.u.pending, i);
    Arrives(w.memory, CqData(w.cq), SendIds(w.u.pending), w.received, w.echoed, w.dropped, HeadBid(w), packet);
  }

  lemma DeliverKeeps(w: World, i: nat, packet: Packet, len: nat, more: bool, w': World)
    requires Inv(w) && Delivers(w, i, packet, len, more, w')
    ensures Inv(w')
  {
    hide Places, OneReceive, Datagrams, CqOk, Slot;
    HeadIsFree(w);
    DeliverPlaces(w, i, packet, len, more, w');
    DeliverArms(w, i, packet, len, more, w');
    DeliverAccounts(w, i, packet, len, more, w');
  }

  lemma FailKeeps(w: World, i: nat, res: int, w': World)
    requires Inv(w) && Fails(w, i, res, w')
    ensures Inv(w')
  {
    hide Conserved, Accounted, AllBelow, CqBids, CqData, SendIds, RingBids, CqOk, SlotsOk, Armed, Ended;
    var c := Cqe(RECV_DATA, res, false, 0, false);
    CqOkSnoc(w.cq, c);
    CqBidsSnoc(w.cq, c);
    CqDataSnoc(w.cq, c);
    EndedSnoc(w.cq, c);
    RecvWithout(w.u.pending, i);
    assert CqBids(w.cq) + [] == CqBids(w.cq) && CqData(w.cq) + [] == CqData(w.cq);
  }

  lemma SlotsSplit(sends: seq<SendCtx>, x: seq<nat>, id: nat, y: seq<nat>)
    requires SlotsOk(sends, x + [id] + y)
    ensures SlotsOk(sends, x + y) && id < |sends| && sends[id] == Msg(id)
  {
    assert id in x + [id] + y;
    assert forall k :: k in x + y ==> k in x + [id] + y;
  }

  lemma SendKeeps(w: World, i: nat, res: int, w': World)
    requires Inv(w) && Sends(w, i, res, w')
    ensures Inv(w')
  {
    hide Conserved, Accounted, AllBelow, Contents, CqBids, CqData, SendIds, RingBids, CqOk, SlotsOk, Armed, Ended;
    var idx := w.u.pending[i].idx;
    var c := Cqe(idx, res, false, 0, false);
    var x, y := PendingWithout(w.u.pending, i);
    CqOkSnoc(w.cq, c);
    CqBidsSnoc(w.cq, c);
    CqDataSnoc(w.cq, c);
    EndedSnoc(w.cq, c);
    SlotsSplit(w.u.sends, x, idx, y);
    SendingToHeld(RingBids(w.u.ring, w.u.tail, w.head), CqBids(w.cq), x, idx, y);
    Leaves(w.memory, CqData(w.cq), x, idx, y, w.received, w.echoed, w.dropped);
    assert CqData(w.cq) + [] == CqData(w.cq);
  }

  // ---------- handling a completion ----------

  lemma CqFront(cq: seq<Cqe>)
    requires cq != [] && CqOk(cq)
    ensures CqeOk(cq[0]) && CqOk(cq[1..])
    ensures CqBids(cq) == BidOf(cq[0]) + CqBids(cq[1..]) && CqData(cq) == DataOf(cq[0]) + CqData(cq[1..])
    ensures Ended(cq) == (if cq[0].userData >= BUFFERS && !cq[0].more then 1 else 0) + Ended(cq[1..])
  {
  }

  /** process_cqe_send and the dropping branches: the buffer goes back to the ring. */
  lemma RecycleKeeps(w: World, u: User, id: nat, rest: seq<nat>)
    requires Well(w) && Places(w) && CqBids(w.cq) == [id] + rest
    requires u.ring == w.u.ring && u.tail == w.u.tail && u.sends == w.u.sends && Shape(u)
    ensures var u' := Recycle(u, id);
            && Shape(u') && Conserved(RingBids(u'.ring, u'.tail, w.head), rest, SendIds(w.u.pending))
            && SlotsOk(u'.sends, SendIds(w.u.pending))
  {
    hide Conserved, CqBids, SendIds, RingBids, CqOk, Slot, SlotsOk;
    var ring := RingBids(w.u.ring, w.u.tail, w.head);
    assert ([id] + rest)[0] == id;
    OnlyHeld(ring, [id] + rest, SendIds(w.u.pending), id);
    RingPut(w.u.ring, w.u.tail, w.head, id);
    HeldToRing(ring, id, rest, SendIds(w.u.pending));
  }

  /** The reply: the message slot is written while no send uses it. */
  lemma ReplyKeeps(w: World, id: nat, rest: seq<nat>)
    requires Well(w) && Places(w) && CqBids(w.cq) == [id] + rest && id < BUFFERS
    ensures id !in SendIds(w.u.pending)
    ensures Conserved(RingBids(w.u.ring, w.u.tail, w.head), rest, SendIds(w.u.pending) + [id])
    ensures SlotsOk(w.u.sends[id := Msg(id)], SendIds(w.u.pending) + [id])
  {
    hide Conserved, CqBids, SendIds, RingBids, CqOk, Slot;
    var ring := RingBids(w.u.ring, w.u.tail, w.head);
    assert ([id] + rest)[0] == id;
    OnlyHeld(ring, [id] + rest, SendIds(w.u.pending), id);
    HeldToSending(ring, id, rest, SendIds(w.u.pending));
  }

  lemma SendCompletionKeeps(w: World, w': World)
    requires Inv(w) && Handles(w, true, true, w') && w.cq[0].userData < BUFFERS
    ensures Inv(w')
  {
    hide Conserved, Accounted, AllBelow, CqBids, CqData, SendIds, RingBids, CqOk, SlotsOk, Armed, Ended, Recycle;
    CqFront(w.cq);
    RecycleKeeps(w, w.u, w.cq[0].userData, CqBids(w.cq[1..]));
    RecycleFrame(w.u, w.cq[0].userData);
    assert CqData(w.cq) == CqData(w.cq[1..]) && w.dropped + [] == w.dropped;
  }

  lemma RecycleFrame(u: User, id: nat)
    requires Shape(u)
    ensures Shape(Recycle(u, id)) && Recycle(u, id).pending == u.pending && Recycle(u, id).sends == u.sends
  {
  }

  /** The state of the requests once process_cqe_recv has renewed an ended receive. */
  function Rearmed(u: User, c: Cqe): User {
    if c.more then u else AddRecvTo(u, true).0
  }

  /** Between re-arming and the rest: the requests stand as after the completion is gone. */
  lemma RearmKeeps(w: World)
    requires Well(w) && OneReceive(w) && w.cq != [] && w.cq[0].userData >= BUFFERS
    ensures var u := Rearmed(w.u, w.cq[0]);
            && SendIds(u.pending) == SendIds(w.u.pending) && Armed(u.pending) + Ended(w.cq[1..]) == 1
            && u == w.u.(pending := u.pending)
  {
    hide SendIds, Armed, Ended, CqOk;
    CqFront(w.cq);
    if !w.cq[0].more {
      PendingSnoc(w.u.pending, MultishotRecv);
      assert SendIds(w.u.pending) + [] == SendIds(w.u.pending);
    }
  }

  /** No buffer: the ring was empty when the receive ended. */
  lemma EmptyCompletionKeeps(w: World, w': World)
    requires Inv(w) && w.cq != [] && w.cq[0].userData >= BUFFERS && !w.cq[0].hasBuf
    requires w' == w.(u := Rearmed(w.u, w.cq[0]), cq := w.cq[1..], posters := w'.posters)
    ensures Inv(w')
  {
    hide Conserved, Accounted, AllBelow, CqBids, CqData, SendIds, RingBids, CqOk, SlotsOk, Armed, Ended, Rearmed;
    CqFront(w.cq);
    RearmKeeps(w);
    assert CqBids(w.cq) == CqBids(w.cq[1..]) && CqData(w.cq) == CqData(w.cq[1..]);
  }

  lemma DroppedKeeps(w: World, w': World)
    requires Inv(w) && w.cq != [] && w.cq[0].userData >= BUFFERS && w.cq[0].hasBuf && w.cq[0].bid < BUFFERS
    requires w' == w.(u := Recycle(Rearmed(w.u, w.cq[0]), w.cq[0].bid), cq := w.cq[1..],
                      posters := w'.posters, dropped := w.dropped + [w.memory[w.cq[0].bid]])
    ensures Inv(w')
  {
    hide Conserved, Accounted, AllBelow, CqBids, CqData, SendIds, RingBids, CqOk, SlotsOk, Armed, Ended, Rearmed, Recycle;
    var c := w.cq[0];
    CqFront(w.cq);
    RearmKeeps(w);
    RecycleKeeps(w, Rearmed(w.u, c), c.bid, CqBids(w.cq[1..]));
    RecycleFrame(Rearmed(w.u, c), c.bid);
    Drops(w.memory, c.bid, CqData(w.cq[1..]), SendIds(w.u.pending), w.received, w.echoed, w.dropped);
  }

  lemma RepliedKeeps(w: World, w': World)
    requires Inv(w) && w.cq != [] && w.cq[0].userData >= BUFFERS && w.cq[0].hasBuf && w.cq[0].bid < BUFFERS
    requires var c, u := w.cq[0], Rearmed(w.u, w.cq[0]);
             w' == w.(u := u.(sends := u.sends[c.bid := Msg(c.bid)], pending := u.pending + [SendMsg(c.bid)]),
                      cq := w.cq[1..], posters := w'.posters)
    ensures Inv(w')
  {
    hide Conserved, Accounted, AllBelow, CqBids, CqData, SendIds, RingBids, CqOk, SlotsOk, Armed, Ended, Rearmed;
    var c := w.cq[0];
    CqFront(w.cq);
    RearmKeeps(w);
    PendingSnoc(Rearmed(w.u, c).pending, SendMsg(c.bid));
    ReplyKeeps(w, c.bid, CqBids(w.cq[1..]));
    Replies(w.memory, c.bid, CqData(w.cq[1..]), SendIds(w.u.pending), w.received, w.echoed, w.dropped);
  }

  lemma HandleKeeps(w: World, armOk: bool, sendOk: bool, w': World)
    requires Inv(w) && Handles(w, armOk, sendOk, w')
    ensures Inv(w')
  {
    hide Places, OneReceive, Datagrams, CqOk, Recycle;
    CqFront(w.cq);
    var c := w.cq[0];
    if c.userData < BUFFERS {
      SendCompletionKeeps(w, w');
    } else if !c.hasBuf {
      EmptyCompletionKeeps(w, w');
      assert w.dropped + [] == w.dropped;
    } else if Recycled(PacketOf(w.memory, c)) {
      DroppedKeeps(w, w');
    } else {
      RepliedKeeps(w, w');
    }
  }

  // ---------- what became of the datagrams, and who posted what ----------

  /** A completion carries the user_data of the request that posted it; a send's names a buffer. */
  ghost predicate Posted(c: Cqe, r: Request) {
    c.userData == UserData(r) && (r.SendMsg? ==> r.idx < BUFFERS)
  }

  ghost predicate Sources(cq: seq<Cqe>, posters: seq<Request>) {
    |cq| == |posters| && forall i :: 0 <= i < |cq| ==> Posted(cq[i], posters[i])
  }

  /** Only datagrams the handler gives up on are dropped; only whole ones are on their way back or echoed. */
  ghost predicate Kinds(memory: seq<Packet>, sending: seq<nat>, echoed: seq<Packet>, dropped: seq<Packet>) {
    && (forall p :: p in dropped ==> p.LongName? || p.Truncated?)
    && (forall p :: p in echoed ==> p.Whole?)
    && forall id :: id in sending ==> id < |memory| && memory[id].Whole?
  }

  ghost predicate Outcomes(w: World) {
    Sources(w.cq, w.posters) && Kinds(w.memory, SendIds(w.u.pending), w.echoed, w.dropped)
  }

  lemma SourcesSnoc(cq: seq<Cqe>, posters: seq<Request>, c: Cqe, r: Request)
    requires Sources(cq, posters) && Posted(c, r)
    ensures Sources(cq + [c], posters + [r])
  {
  }

  lemma SourcesPop(cq: seq<Cqe>, posters: seq<Request>)
    requires Sources(cq, posters) && cq != []
    ensures Sources(cq[1..], posters[1..])
  {
  }

  lemma DeliverOutcomes(w: World, i: nat, packet: Packet, len: nat, more: bool, w': World)
    requires Inv(w) && Outcomes(w) && Delivers(w, i, packet, len, more, w')
    ensures Outcomes(w')
  {
    hide Sources, Places, OneReceive, Datagrams, SendIds, CqOk, Slot;
    HeadIsFree(w);
    RecvWithout(w.u.pending, i);
    SourcesSnoc(w.cq, w.posters, w'.cq[|w.cq|], w.u.pending[i]);
  }

  lemma FailOutcomes(w: World, i: nat, res: int, w': World)
    requires Outcomes(w) && Fails(w, i, res, w')
    ensures Outcomes(w')
  {
    hide Sources, Kinds, SendIds;
    RecvWithout(w.u.pending, i);
    SourcesSnoc(w.cq, w.posters, w'.cq[|w.cq|], w.u.pending[i]);
  }

  lemma SendOutcomes(w: World, i: nat, res: int, w': World)
    requires Inv(w) && Outcomes(w) && Sends(w, i, res, w')
    ensures Outcomes(w')
  {
    hide Sources, OneReceive, Datagrams, SendIds, CqOk, Conserved, SlotsOk;
    var idx := w.u.pending[i].idx;
    var x, y := PendingWithout(w.u.pending, i);
    SlotsSplit(w.u.sends, x, idx, y);
    assert idx in x + [idx] + y;
    assert forall k :: k in x + y ==> k in x + [idx] + y;
    SourcesSnoc(w.cq, w.posters, w'.cq[|w.cq|], w.u.pending[i]);
  }

  lemma HandleOutcomes(w: World, armOk: bool, sendOk: bool, w': World)
    requires Inv(w) && Outcomes(w) && Handles(w, armOk, sendOk, w')
    ensures Outcomes(w')
  {
    hide Sources, Places, Datagrams, SendIds, CqOk, OneReceive;
    SourcesPop(w.cq, w.posters);
    CqFront(w.cq);
    var c := w.cq[0];
    if c.userData >= BUFFERS {
      RearmKeeps(w);
      if c.hasBuf && !Recycled(PacketOf(w.memory, c)) {
        PendingSnoc(Rearmed(w.u, c).pending, SendMsg(c.bid));
      }
    }
  }

  lemma OutcomesKept(w: World, a: Action, w': World)
    requires Inv(w) && Outcomes(w) && Next(w, a, w')
    ensures Outcomes(w')
  {
    hide Inv, Outcomes, CqOk, Delivers, Fails, Sends, Handles;
    match a
    case Deliver(i, packet, len, more) => DeliverOutcomes(w, i, packet, len, more, w');
    case RecvFails(i, res) => FailOutcomes(w, i, res, w');
    case SendDone(i, res) => SendOutcomes(w, i, res, w');
    case Handle(armOk, sendOk) => HandleOutcomes(w, armOk, sendOk, w');
  }

  lemma StepKeeps(w: World, a: Action, w': World)
    requires Inv(w) && Next(w, a, w')
    ensures Inv(w')
  {
    hide Places, OneReceive, Datagrams, CqOk, Delivers, Fails, Sends, Handles;
    match a
    case Deliver(i, packet, len, more) => DeliverKeeps(w, i, packet, len, more, w');
    case RecvFails(i, res) => FailKeeps(w, i, res, w');
    case SendDone(i, res) => SendKeeps(w, i, res, w');
    case Handle(armOk, sendOk) => HandleKeeps(w, armOk, sendOk, w');
  }

  /** The server after setup, with any memory and no history. */
  ghost predicate Init(w: World) {
    w.u == Setup() && w.head == 0 && |w.memory| == BUFFERS && w.cq == [] && w.posters == [] && w.received == w.echoed == w.dropped == []
  }

  /** setup_buffer_pool starts the buffers in order. */
  lemma {:induction false} SetupRing(n: nat)
    requires n <= BUFFERS
    ensures Range(Setup().ring, BUFFERS, false, 0, n) == AllIds(n)
  {
    if n > 0 {
      SetupRing(n - 1);
      ModSmall(n - 1, BUFFERS);
    }
  }

  lemma NoRequests()
    ensures SendIds([]) == [] && Armed([]) == 0
  {
  }

  lemma InitHolds(w: World)
    requires Init(w)
    ensures Inv(w) && Outcomes(w)
  {
    hide Range, AllIds, SendIds, Armed;
    SetupRing(BUFFERS);
    ModSmall(BUFFERS, U16);
    PendingSnoc([], MultishotRecv);
    NoRequests();
    assert [] + [MultishotRecv] == [MultishotRecv];
    assert multiset(AllIds(BUFFERS)) + multiset([]) + multiset([]) == multiset(AllIds(BUFFERS));
  }

  // ---------- every run ----------

  ghost predicate IsRun(states: seq<World>, actions: seq<Action>) {
    && |states| == |actions| + 1 && Init(states[0])
    && forall j :: 0 <= j < |actions| && Well(states[j]) ==> Next(states[j], actions[j], states[j + 1])
  }

  lemma {:induction false} RunKeeps(states: seq<World>, actions: seq<Action>, i: nat)
    requires IsRun(states, actions) && i < |states|
    ensures Inv(states[i]) && Outcomes(states[i])
  {
    hide Inv, Init, Next, CqOk, Outcomes;
    if i == 0 {
      InitHolds(states[0]);
    } else {
      RunKeeps(states, actions, i - 1);
      StepKeeps(states[i - 1], actions[i - 1], states[i]);
      OutcomesKept(states[i - 1], actions[i - 1], states[i]);
    }
  }

  /**
   * In every continuing run each buffer is in exactly one place, once: in the ring, in a completion
   * not handled yet, or being sent.
   */
  lemma BuffersConserved(states: seq<World>, actions: seq<Action>, i: nat, b: nat)
    requires IsRun(states, actions) && i < |states| && b < BUFFERS
    ensures var w := states[i];
            && Shape(w.u)
            && multiset(RingBids(w.u.ring, w.u.tail, w.head))[b] + multiset(CqBids(w.cq))[b]
                 + multiset(SendIds(w.u.pending))[b] == 1
    ensures Available(states[i]) <= BUFFERS
  {
    hide Conserved, CqBids, SendIds, RingBids, SlotsOk;
    RunKeeps(states, actions, i);
    var w := states[i];
    OnePlace(RingBids(w.u.ring, w.u.tail, w.head), CqBids(w.cq), SendIds(w.u.pending), b);
  }

  /** Exactly one multishot receive is armed whenever no completion that ended one is waiting. */
  lemma OneReceiveArmed(states: seq<World>, actions: seq<Action>, i: nat)
    requires IsRun(states, actions) && i < |states|
    ensures Armed(states[i].u.pending) <= 1
    ensures Armed(states[i].u.pending) == 1 <==> Ended(states[i].cq) == 0
  {
    RunKeeps(states, actions, i);
  }

  /** process_cqe's test tells the two kinds apart: user_data is below BUFFERS exactly when a send posted it. */
  lemma DispatchIsRight(states: seq<World>, actions: seq<Action>, i: nat, k: nat)
    requires IsRun(states, actions) && i < |states| && k < |states[i].cq|
    ensures k < |states[i].posters|
    ensures states[i].cq[k].userData < BUFFERS <==> states[i].posters[k].SendMsg?
    ensures states[i].posters[k].SendMsg? ==> states[i].cq[k].userData == states[i].posters[k].idx
  {
    hide Inv, Kinds;
    RunKeeps(states, actions, i);
    assert Posted(states[i].cq[k], states[i].posters[k]);
  }

  /** A send's message slot still points to its own buffer, and no other send uses that slot. */
  lemma SendSlotsExclusive(states: seq<World>, actions: seq<Action>, i: nat, id: nat)
    requires IsRun(states, actions) && i < |states| && id in SendIds(states[i].u.pending)
    ensures id < |states[i].u.sends| && states[i].u.sends[id] == Msg(id)
    ensures multiset(SendIds(states[i].u.pending))[id] == 1
  {
    RunKeeps(states, actions, i);
    var w := states[i];
    OnePlace(RingBids(w.u.ring, w.u.tail, w.head), CqBids(w.cq), SendIds(w.u.pending), id);
    assert multiset(SendIds(w.u.pending))[id] > 0;
  }

  /** At rest nothing is left of what was received but what was echoed and dropped. */
  lemma InvBalances(w: World)
    requires Inv(w) && Outcomes(w)
    ensures multiset(w.echoed) <= multiset(w.received)
    ensures forall p :: p in w.echoed ==> p.Whole?
    ensures forall p :: p in w.dropped ==> p.LongName? || p.Truncated?
    ensures w.cq == [] && SendIds(w.u.pending) == [] ==>
              && multiset(w.received) == multiset(w.echoed) + multiset(w.dropped)
              && forall p: Packet :: p.Whole? ==> multiset(w.received)[p] == multiset(w.echoed)[p]
  {
    hide Places, OneReceive, SendIds, Sources, CqOk;
    forall p: Packet | p.Whole?
      ensures multiset(w.dropped)[p] == 0
    {
      assert p !in w.dropped;
    }
  }

  /**
   * Nothing is echoed that was not received, nothing twice, nothing altered, and only over-long or
   * truncated datagrams are dropped: once nothing is under way, every whole datagram received was
   * echoed, as often as it was received.
   */
  lemma EchoesWhatItReceived(states: seq<World>, actions: seq<Action>, i: nat)
    requires IsRun(states, actions) && i < |states|
    ensures multiset(states[i].echoed) <= multiset(states[i].received)
    ensures forall p :: p in states[i].echoed ==> p.Whole?
    ensures forall p :: p in states[i].dropped ==> p.LongName? || p.Truncated?
    ensures states[i].cq == [] && SendIds(states[i].u.pending) == [] ==>
              && multiset(states[i].received) == multiset(states[i].echoed) + multiset(states[i].dropped)
              && forall p: Packet :: p.Whole? ==> multiset(states[i].received)[p] == multiset(states[i].echoed)[p]
  {
    hide IsRun, Inv, Outcomes, Places, OneReceive, Datagrams, SendIds;
    RunKeeps(states, actions, i);
    InvBalances(states[i]);
  }

  // ---------- when a handler succeeds ----------

  /** The receive goes on, or an entry to renew it with is free; and if it is to be answered, one for the reply. */
  ghost predicate Served(c: Cqe, packet: Packet, armOk: bool, sendOk: bool) {
    && (c.more || armOk)
    && (c.res == ENOBUFS || (c.hasBuf && !packet.Malformed? && (packet.Whole? ==> sendOk)))
  }

  /** A completion without a buffer carries an error, one with a buffer none. */
  lemma BufferMeansData(w: World)
    requires Inv(w) && Outcomes(w) && w.cq != []
    ensures w.posters != [] && CqeOk(w.cq[0]) && Posted(w.cq[0], w.posters[0])
  {
    hide Places, OneReceive, Datagrams, Kinds;
  }

  /**
   * In every reachable state with a completion waiting, process_cqe succeeds exactly if a send posted
   * it, or the receive can be renewed where it ended and it met an empty ring or brought a well-formed
   * datagram that is dropped or for whose reply an entry is free. Otherwise it returns -1.
   */
  lemma SucceedsIffServed(states: seq<World>, actions: seq<Action>, i: nat, armOk: bool, sendOk: bool)
    requires IsRun(states, actions) && i < |states| && states[i].cq != []
    ensures var w := states[i];
            && w.posters != [] && Well(w)
            && var ret := Process(w.u, w.cq[0], PacketOf(w.memory, w.cq[0]), armOk, sendOk).1;
               && (ret == 0 <==> w.posters[0].SendMsg? || Served(w.cq[0], PacketOf(w.memory, w.cq[0]), armOk, sendOk))
               && (ret != 0 ==> ret == -1)
  {
    hide Inv, Outcomes, CqOk;
    RunKeeps(states, actions, i);
    BufferMeansData(states[i]);
  }

  /** What a kernel that only delivers well-formed datagrams and only fails for want of buffers leaves behind. */
  ghost predicate Clean(cq: seq<Cqe>, memory: seq<Packet>)
    requires |memory| == BUFFERS && CqOk(cq)
  {
    forall k :: 0 <= k < |cq| && cq[k].userData >= BUFFERS ==>
      if cq[k].hasBuf then !memory[cq[k].bid].Malformed? else cq[k].res == ENOBUFS
  }

  ghost predicate Benign(a: Action) {
    match a
    case Deliver(_, packet, _, _) => !packet.Malformed?
    case RecvFails(_, res) => res == ENOBUFS
    case SendDone(_, _) => true
    case Handle(_, _) => true
  }

  lemma StaysClean(w: World, a: Action, w': World)
    requires Well(w) && Well(w') && Clean(w.cq, w.memory) && Benign(a) && Next(w, a, w') && Outcomes(w)
    ensures Clean(w'.cq, w'.memory)
  {
    hide Process, Sources, Kinds, SendIds;
    assert forall k :: 0 <= k < |w.cq| ==> CqeOk(w.cq[k]);
    assert forall k :: 0 <= k < |w'.cq| ==> CqeOk(w'.cq[k]);
  }

  lemma {:induction false} RunIsClean(states: seq<World>, actions: seq<Action>, i: nat)
    requires IsRun(states, actions) && i < |states| && forall j :: 0 <= j < |actions| ==> Benign(actions[j])
    ensures Well(states[i]) && Clean(states[i].cq, states[i].memory)
  {
    hide Inv, Outcomes, Next, CqOk, Clean, Init, Benign;
    RunKeeps(states, actions, i);
    if i == 0 {
      NothingWaits(states[0]);
    } else {
      RunIsClean(states, actions, i - 1);
      RunKeeps(states, actions, i - 1);
      StaysClean(states[i - 1], actions[i - 1], states[i]);
    }
  }

  lemma NothingWaits(w: World)
    requires Init(w) && Well(w)
    ensures Clean(w.cq, w.memory)
  {
  }

  /**
   * The server goes on: as long as datagrams are well-formed, receives fail only for want of buffers
   * and submission entries are free, every completion that waits can be handled.
   */
  lemma ServerGoesOn(states: seq<World>, actions: seq<Action>, i: nat)
    requires IsRun(states, actions) && i < |states| && forall j :: 0 <= j < |actions| ==> Benign(actions[j])
    requires states[i].cq != []
    ensures Well(states[i]) && exists w' :: Next(states[i], Handle(true, true), w')
  {
    hide Inv, Outcomes, CqOk, IsRun, Process;
    RunKeeps(states, actions, i);
    RunIsClean(states, actions, i);
    SucceedsIffServed(states, actions, i, true, true);
    var w := states[i];
    BufferMeansData(w);
    CleanIsServed(w);
    var packet := PacketOf(w.memory, w.cq[0]);
    var w' := w.(u := Process(w.u, w.cq[0], packet, true, true).0, cq := w.cq[1..], posters := w.posters[1..],
                 dropped := w.dropped + if Recycled(packet) then [packet] else []);
    assert Handles(w, true, true, w');
    assert Next(w, Handle(true, true), w');
  }

  lemma CleanIsServed(w: World)
    requires Well(w) && Clean(w.cq, w.memory) && w.cq != [] && CqeOk(w.cq[0])
    ensures w.cq[0].userData < BUFFERS || Served(w.cq[0], PacketOf(w.memory, w.cq[0]), true, true)
  {
  }
}
