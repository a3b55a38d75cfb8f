// The completion ring of liburing: the kernel posts entries at the tail, the
// program reads them from the head and then moves the head on.
module CompletionQueue {
  import opened Arith
  import opened RingIndex

  datatype Cqe = Cqe(userData: int, res: int, flags: int)

  datatype Cq = Cq(entries: nat, wide: bool, cqes: seq<Cqe>, khead: int, ktail: int)

  /** io_uring_cq_ready */
  function Ready(c: Cq): nat {
    (c.ktail - c.khead) % U32
  }

  ghost predicate Valid(c: Cq) {
    && 0 < c.entries <= 0x8000_0000 && U32 % c.entries == 0 && |c.cqes| == c.entries * Step(c.wide)
    && 0 <= c.khead < U32 && 0 <= c.ktail < U32
    && Ready(c) <= c.entries
  }

  /** Posted entries the program has not given back, oldest first. */
  function Unseen(c: Cq): (r: seq<Cqe>)
    requires Valid(c)
    ensures |r| == Ready(c)
  {
    Range(c.cqes, c.entries, c.wide, c.khead, Ready(c))
  }

  /** The kernel posts one entry; it does so only when there is room. */
  function Post(c: Cq, e: Cqe): Cq
    requires Valid(c) && Ready(c) < c.entries
  {
    c.(cqes := c.cqes[Slot(c.ktail, c.entries, c.wide) := e], ktail := (c.ktail + 1) % U32)
  }

  /** io_uring_cq_advance */
  function Advance(c: Cq, nr: nat): Cq {
    if nr > 0 then c.(khead := (c.khead + nr) % U32) else c
  }

  lemma PostCounters(c: Cq)
    requires Valid(c) && Ready(c) < c.entries
    ensures var tail := (c.ktail + 1) % U32; 0 <= tail < U32 && (tail - c.khead) % U32 == Ready(c) + 1
    ensures Slot(c.ktail, c.entries, c.wide) == Slot(c.khead + Ready(c), c.entries, c.wide)
  {
    hide Slot;
    Offset(c.khead, c.ktail, U32);
    DistanceGrows(c.khead, c.ktail, Ready(c), U32);
    SlotWraps(c.khead + Ready(c), 0, c.entries, c.wide, U32);
  }

  /** A post appends to the unseen entries and overwrites none of them. */
  lemma PostRefines(c: Cq, e: Cqe)
    requires Valid(c) && Ready(c) < c.entries
    ensures Valid(Post(c, e)) && Unseen(Post(c, e)) == Unseen(c) + [e]
  {
    hide Slot, Range;
    PostCounters(c);
    RangeGrows(c.cqes, c.entries, c.wide, c.khead, Ready(c), e);
  }

  lemma AdvanceCounters(head: int, tail: int, nr: nat)
    requires 0 <= head < U32 && 0 <= tail < U32 && nr <= (tail - head) % U32
    ensures (tail - (head + nr) % U32) % U32 == (tail - head) % U32 - nr
  {
    Offset(head, tail, U32);
    WrappedDistance(head + (tail - head) % U32, head + nr, U32);
  }

  /** Moving the head over nr ready entries drops exactly those. */
  lemma AdvanceRefines(c: Cq, nr: nat)
    requires Valid(c) && nr <= Ready(c)
    ensures Valid(Advance(c, nr)) && Unseen(Advance(c, nr)) == Unseen(c)[nr..]
  {
    hide Slot, Range;
    AdvanceCounters(c.khead, c.ktail, nr);
    RangeJoins(c.cqes, c.entries, c.wide, c.khead, nr, Ready(c) - nr, U32);
  }

  /** The k-th unseen entry is found through a counter that may have wrapped on the way. */
  lemma UnseenAt(c: Cq, k: nat)
    requires Valid(c) && k < Ready(c)
    ensures Unseen(c)[k] == c.cqes[Slot((c.khead + k) % U32, c.entries, c.wide)]
  {
    hide Slot, Range;
    var n := Ready(c);
    RangeJoins(c.cqes, c.entries, c.wide, c.khead, k, n - k, U32);
    RangeSplit(c.cqes, c.entries, c.wide, (c.khead + k) % U32, 1, n - k - 1);
    RangeOne(c.cqes, c.entries, c.wide, (c.khead + k) % U32);
  }

  // ---------- runs ----------

  datatype Action = KernelPosts(e: Cqe) | Seen(nr: nat)

  /** A ring with the history of what was posted and what was given back. */
  datatype World = World(cq: Cq, posted: seq<Cqe>, seen: seq<Cqe>)

  ghost predicate Next(w: World, a: Action, w': World) {
    Valid(w.cq) &&
    match a
    case KernelPosts(e) =>
      Ready(w.cq) < w.cq.entries && w' == w.(cq := Post(w.cq, e), posted := w.posted + [e])
    case Seen(nr) =>
      nr <= Ready(w.cq) && w' == w.(cq := Advance(w.cq, nr), seen := w.seen + Unseen(w.cq)[..nr])
  }

  ghost predicate Inv(w: World) {
    Valid(w.cq) && w.posted == w.seen + Unseen(w.cq)
  }

  lemma StepKeeps(w: World, a: Action, w': World)
    requires Inv(w) && Next(w, a, w')
    ensures Inv(w')
  {
    hide Valid, Unseen, Post, Advance, Ready;
    match a
    case KernelPosts(e) => PostRefines(w.cq, e);
    case Seen(nr) => AdvanceRefines(w.cq, nr);
  }

  /**
   * Over every run, wherever the counters start: the entries given back, followed by the unseen
   * ones, are exactly the posted ones. Nothing is lost, repeated or reordered across wrap-around.
   */
  lemma {:induction false} DeliveredOnceInOrder(states: seq<World>, actions: seq<Action>, i: nat)
    requires |states| == |actions| + 1 && i < |states|
    requires Inv(states[0]) && states[0].posted == states[0].seen == []
    requires forall j :: 0 <= j < |actions| ==> Next(states[j], actions[j], states[j + 1])
    ensures Valid(states[i].cq) && states[i].posted == states[i].seen + Unseen(states[i].cq)
  {
    if i > 0 {
      DeliveredOnceInOrder(states, actions, i - 1);
      StepKeeps(states[i - 1], actions[i - 1], states[i]);
    }
  }
}
