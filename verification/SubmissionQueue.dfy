// The submission ring of liburing: the program allocates, fills and flushes
// entries, the kernel consumes them. All counters are 32-bit and wrap; the ring
// has a power-of-two number of slots, each one or (SQE128) two units wide.
module SubmissionQueue {
  import opened Arith
  import opened Options
  import opened RingIndex

  /** The parts of struct io_uring_sqe; io_uring_initialize_sqe clears the second row. */
  datatype Sqe = Sqe(
    opcode: int, fd: int, off: int, addr: int, len: int, userData: int,
    flags: int, ioprio: int, rwFlags: int, bufIndex: int, personality: int, fileIndex: int, addr3: int, pad2: int)

  /** sqeHead, sqeTail are the program's; khead, ktail are shared with the kernel. */
  datatype Sq = Sq(
    entries: nat, wide: bool, sqes: seq<Sqe>, sqeHead: int, sqeTail: int, khead: int, ktail: int)

  function Initialized(e: Sqe): Sqe {
    e.(flags := 0, ioprio := 0, rwFlags := 0, bufIndex := 0,
       personality := 0, fileIndex := 0, addr3 := 0, pad2 := 0)
  }

  /** io_uring_prep_rw: what every request sets. */
  function PrepRw(e: Sqe, op: int, fd: int, addr: int, len: int, offset: int): Sqe {
    e.(opcode := op, fd := fd, off := offset, addr := addr, len := len)
  }

  /** io_uring_sqe_set_data64 */
  function SetData(e: Sqe, data: int): Sqe {
    e.(userData := data)
  }

  /**
   * A request prepared in an entry that get_sqe handed out is what it was asked to be, with every
   * other field zero: nothing of the request that used the slot before reaches the kernel.
   */
  lemma NothingSurvives(before: Sqe, op: int, fd: int, addr: int, len: int, offset: int, data: int)
    ensures SetData(PrepRw(Initialized(before), op, fd, addr, len, offset), data)
         == Sqe(op, fd, offset, addr, len, data, 0, 0, 0, 0, 0, 0, 0, 0)
  {
  }

  function QueueLen(s: Sq): nat {
    (s.ktail - s.khead) % U32
  }

  function StagedLen(s: Sq): nat {
    (s.sqeTail - s.ktail) % U32
  }

  ghost predicate Valid(s: Sq) {
    && 0 < s.entries <= 0x8000_0000 && U32 % s.entries == 0 && |s.sqes| == s.entries * Step(s.wide)
    && 0 <= s.khead < U32 && 0 <= s.ktail < U32 && 0 <= s.sqeTail < U32
    && s.sqeHead == s.ktail
    && QueueLen(s) + StagedLen(s) <= s.entries
  }

  /** Flushed entries the kernel has not consumed, oldest first. */
  function Queue(s: Sq): (r: seq<Sqe>)
    requires Valid(s)
    ensures |r| == QueueLen(s)
  {
    Range(s.sqes, s.entries, s.wide, s.khead, QueueLen(s))
  }

  /** Entries handed out by get_sqe and not flushed yet, oldest first. */
  function Staged(s: Sq): (r: seq<Sqe>)
    requires Valid(s)
    ensures |r| == StagedLen(s)
  {
    Range(s.sqes, s.entries, s.wide, s.ktail, StagedLen(s))
  }

  // ---------- the operations ----------

  /** _io_uring_get_sqe, having read `head` from the shared head counter some time ago. */
  function GetSqe(s: Sq, head: int): (Sq, Option<nat>)
    requires Valid(s)
  {
    var next := (s.sqeTail + 1) % U32;
    if (next - head) % U32 <= s.entries then
      var k := Slot(s.sqeTail, s.entries, s.wide);
      (s.(sqeTail := next, sqes := s.sqes[k := Initialized(s.sqes[k])]), Some(k))
    else (s, None)
  }

  /** __io_uring_flush_sq: publish the staged entries; returns how many the kernel has yet to consume. */
  function FlushSq(s: Sq): (Sq, int) {
    var s' := if s.sqeHead != s.sqeTail then s.(sqeHead := s.sqeTail, ktail := s.sqeTail) else s;
    (s', (s.sqeTail - s.khead) % U32)
  }

  /** The program writes to an entry it was given. */
  function Fill(s: Sq, k: nat, e: Sqe): Sq
    requires k < |s.sqes|
  {
    s.(sqes := s.sqes[k := e])
  }

  /** The kernel consumes the oldest flushed entry. */
  function Consume(s: Sq): (Sq, Sqe)
    requires Valid(s) && QueueLen(s) > 0
  {
    (s.(khead := (s.khead + 1) % U32), s.sqes[Slot(s.khead, s.entries, s.wide)])
  }

  function SqReady(s: Sq): int {
    (s.sqeTail - s.khead) % U32
  }

  function SqSpaceLeft(s: Sq): int {
    (s.entries - SqReady(s)) % U32
  }

  // ---------- what they mean for the two sequences ----------

  /** The 32-bit counters read as offsets from the kernel's head. */
  lemma Positions(s: Sq)
    requires Valid(s)
    ensures s.ktail == (s.khead + QueueLen(s)) % U32
    ensures s.sqeTail == (s.ktail + StagedLen(s)) % U32
    ensures s.sqeTail == (s.khead + QueueLen(s) + StagedLen(s)) % U32
    ensures SqReady(s) == QueueLen(s) + StagedLen(s)
  {
    Offsets(s.khead, s.ktail, s.sqeTail, QueueLen(s), StagedLen(s), U32);
  }

  /**
   * get_sqe with a head counter that may be stale by `lag` consumed entries: it returns NULL
   * exactly when the observed head shows a full ring; otherwise it hands out one more entry,
   * cleared, without touching any entry that is queued or staged.
   */
  lemma GetSqeRefines(s: Sq, head: int, lag: nat)
    requires Valid(s) && QueueLen(s) + StagedLen(s) + lag <= s.entries
    requires head == (s.khead - lag) % U32
    ensures var (s', r) := GetSqe(s, head);
            && Valid(s')
            && (r.None? <==> QueueLen(s) + StagedLen(s) + lag == s.entries)
            && (r.None? ==> s' == s)
            && (r.Some? ==>
                  && r.value < |s.sqes| && Queue(s') == Queue(s)
                  && Staged(s') == Staged(s) + [Initialized(s.sqes[r.value])]
                  && r.value == Slot(s'.ktail + |Staged(s)|, s.entries, s.wide))
  {
    GetSqeTest(s, head, lag);
    if GetSqe(s, head).1.Some? {
      GetSqeStages(s);
    }
  }

  /** The comparison on wrapped counters decides what the unbounded one would. */
  lemma GetSqeTest(s: Sq, head: int, lag: nat)
    requires Valid(s) && QueueLen(s) + StagedLen(s) + lag <= s.entries
    requires head == (s.khead - lag) % U32
    ensures ((s.sqeTail + 1) % U32 - head) % U32 == QueueLen(s) + StagedLen(s) + lag + 1
  {
    var used := QueueLen(s) + StagedLen(s);
    Positions(s);
    ModAdd(s.khead + used, 1, U32);
    WrappedDistance(s.khead + used + 1, s.khead - lag, U32);
  }

  lemma GetSqeCounters(s: Sq)
    requires Valid(s) && QueueLen(s) + StagedLen(s) < s.entries
    ensures var tail := (s.sqeTail + 1) % U32;
            0 <= tail < U32 && (tail - s.ktail) % U32 == StagedLen(s) + 1
    ensures Slot(s.sqeTail, s.entries, s.wide) == Slot(s.ktail + StagedLen(s), s.entries, s.wide)
  {
    hide Slot;
    Offset(s.ktail, s.sqeTail, U32);
    DistanceGrows(s.ktail, s.sqeTail, StagedLen(s), U32);
    SlotWraps(s.ktail + StagedLen(s), 0, s.entries, s.wide, U32);
  }

  lemma GetSqeStages(s: Sq)
    requires Valid(s) && QueueLen(s) + StagedLen(s) < s.entries
    ensures var k := Slot(s.sqeTail, s.entries, s.wide);
            var s' := s.(sqeTail := (s.sqeTail + 1) % U32, sqes := s.sqes[k := Initialized(s.sqes[k])]);
            && Valid(s') && Queue(s') == Queue(s)
            && Staged(s') == Staged(s) + [Initialized(s.sqes[k])]
            && k == Slot(s.ktail + StagedLen(s), s.entries, s.wide)
  {
    hide Slot, Range, Initialized;
    GetSqeCounters(s);
    var e := Initialized(s.sqes[Slot(s.sqeTail, s.entries, s.wide)]);
    QueueElsewhere(s, StagedLen(s), e);
    RangeGrows(s.sqes, s.entries, s.wide, s.ktail, StagedLen(s), e);
  }

  /** A write t places after the queue's end leaves the queue alone. */
  lemma QueueElsewhere(s: Sq, t: nat, e: Sqe)
    requires Valid(s) && QueueLen(s) + t < s.entries
    ensures var k := Slot(s.ktail + t, s.entries, s.wide);
            Range(s.sqes[k := e], s.entries, s.wide, s.khead, QueueLen(s)) == Queue(s)
  {
    hide Slot, Range;
    Offset(s.khead, s.ktail, U32);
    SlotWraps(s.khead + QueueLen(s), t, s.entries, s.wide, U32);
    RangeElsewhere(s.sqes, s.entries, s.wide, s.khead, QueueLen(s), s.khead + QueueLen(s) + t, e);
  }

  /** Filling the j-th staged entry changes that entry and nothing else. */
  lemma FillRefines(s: Sq, j: nat, e: Sqe)
    requires Valid(s) && j < StagedLen(s)
    ensures var s' := Fill(s, Slot(s.ktail + j, s.entries, s.wide), e);
            Valid(s') && Queue(s') == Queue(s) && Staged(s') == Staged(s)[j := e]
  {
    hide Slot, Range;
    QueueElsewhere(s, j, e);
    RangeUpdate(s.sqes, s.entries, s.wide, s.ktail, StagedLen(s), j, e);
  }

  lemma FlushCounters(s: Sq)
    requires Valid(s)
    ensures var (s', n) := FlushSq(s);
            && Valid(s') && s' == s.(sqeHead := s.sqeTail, ktail := s.sqeTail)
            && n == QueueLen(s') == QueueLen(s) + StagedLen(s) && StagedLen(s') == 0
  {
    Positions(s);
  }

  /** A flush moves the staged entries to the end of the queue and reports the queue's new length. */
  lemma FlushRefines(s: Sq)
    requires Valid(s)
    ensures var (s', n) := FlushSq(s);
            Valid(s') && Queue(s') == Queue(s) + Staged(s) && Staged(s') == [] && n == |Queue(s')|
  {
    hide Range, FlushSq;
    var q, t := QueueLen(s), StagedLen(s);
    FlushCounters(s);
    Positions(s);
    RangeJoins(s.sqes, s.entries, s.wide, s.khead, q, t, U32);
    RangeEmpty(s.sqes, s.entries, s.wide, s.sqeTail);
  }

  /** The kernel consumes the head of the queue and leaves the rest as it is. */
  lemma ConsumeRefines(s: Sq)
    requires Valid(s) && QueueLen(s) > 0
    ensures var (s', e) := Consume(s);
            Valid(s') && Queue(s) == [e] + Queue(s') && Staged(s') == Staged(s)
  {
    hide Slot, Range;
    var q := QueueLen(s);
    Positions(s);
    ConsumeDistance(s.khead, s.ktail, q, U32);
    RangeJoins(s.sqes, s.entries, s.wide, s.khead, 1, q - 1, U32);
    RangeOne(s.sqes, s.entries, s.wide, s.khead);
  }

  /** sq_ready counts queued and staged entries; sq_space_left is what get_sqe can still hand out. */
  lemma ReadyCounts(s: Sq)
    requires Valid(s)
    ensures SqReady(s) == |Queue(s)| + |Staged(s)| && SqSpaceLeft(s) == s.entries - (|Queue(s)| + |Staged(s)|)
    ensures SqSpaceLeft(s) == 0 <==> GetSqe(s, s.khead).1.None?
  {
    Positions(s);
    ModSmall(s.khead, U32);
    GetSqeRefines(s, s.khead, 0);
    ModSmall(s.entries - SqReady(s), U32);
  }

  // ---------- runs ----------

  datatype Action = Get(lag: nat) | Write(j: nat, e: Sqe) | Flush | KernelConsumes

  /** A ring with the history of what was flushed to the kernel and what the kernel consumed. */
  datatype World = World(sq: Sq, flushed: seq<Sqe>, consumed: seq<Sqe>)

  ghost predicate Next(w: World, a: Action, w': World) {
    Valid(w.sq) &&
    match a
    case Get(lag) =>
      && QueueLen(w.sq) + StagedLen(w.sq) + lag <= w.sq.entries
      && w' == w.(sq := GetSqe(w.sq, (w.sq.khead - lag) % U32).0)
    case Write(j, e) =>
      && j < StagedLen(w.sq)
      && w' == w.(sq := Fill(w.sq, Slot(w.sq.ktail + j, w.sq.entries, w.sq.wide), e))
    case Flush => w' == w.(sq := FlushSq(w.sq).0, flushed := w.flushed + Staged(w.sq))
    case KernelConsumes =>
      && QueueLen(w.sq) > 0
      && w' == w.(sq := Consume(w.sq).0, consumed := w.consumed + [Consume(w.sq).1])
  }

  ghost predicate Inv(w: World) {
    Valid(w.sq) && w.flushed == w.consumed + Queue(w.sq)
  }

  lemma StepKeeps(w: World, a: Action, w': World)
    requires Inv(w) && Next(w, a, w')
    ensures Inv(w')
  {
    hide Valid, Queue, Staged, Range, Slot, GetSqe, QueueLen, StagedLen;
    match a
    case Get(lag) => GetSqeRefines(w.sq, (w.sq.khead - lag) % U32, lag);
    case Write(j, e) => FillRefines(w.sq, j, e);
    case Flush => FlushRefines(w.sq);
    case KernelConsumes => ConsumeRefines(w.sq);
  }

  /**
   * Over every run from an empty ring, wherever its counters start: what the kernel consumed,
   * followed by what is queued, is exactly what was flushed. So every flushed entry is consumed
   * once, in order and unmodified, and the ring never holds more than its size.
   */
  lemma {:induction false} FlushedIsConsumedInOrder(states: seq<World>, actions: seq<Action>, i: nat)
    requires |states| == |actions| + 1 && i < |states|
    requires Inv(states[0]) && states[0].flushed == states[0].consumed == []
    requires forall j :: 0 <= j < |actions| ==> Next(states[j], actions[j], states[j + 1])
    ensures Valid(states[i].sq)
    ensures states[i].flushed == states[i].consumed + Queue(states[i].sq)
    ensures |Queue(states[i].sq)| + |Staged(states[i].sq)| <= states[i].sq.entries
  {
    if i > 0 {
      FlushedIsConsumedInOrder(states, actions, i - 1);
      StepKeeps(states[i - 1], actions[i - 1], states[i]);
    }
  }
}
