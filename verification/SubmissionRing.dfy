// The submission side of struct io_uring as it runs: the program's methods and
// the kernel's, on the shared entry array, with the kernel free to run between
// the program's steps.
module SubmissionRing {
  import opened Arith
  import opened Options
  import opened RingIndex
  import opened SubmissionQueue

  const OP_TIMEOUT := 11
  const EAGAIN := 11

  /** The kernel consumes `n` entries one after the other. */
  ghost function ConsumeMany(s: Sq, n: nat): (s': Sq)
    requires Valid(s) && n <= QueueLen(s)
    ensures Valid(s')
    decreases n
  {
    if n == 0 then s
    else
      ConsumeRefines(s);
      ConsumeMany(Consume(s).0, n - 1)
  }

  /** The kernel takes a prefix of the queue; its head counter moves by as much. */
  lemma {:induction false} ConsumeManyRefines(s: Sq, n: nat)
    requires Valid(s) && n <= QueueLen(s)
    ensures var s' := ConsumeMany(s, n);
            && Valid(s') && Queue(s') == Queue(s)[n..] && Staged(s') == Staged(s)
            && s' == s.(khead := (s.khead + n) % U32)
    decreases n
  {
    hide Valid, Queue, Staged, Range, Slot, QueueLen, StagedLen;
    HeadInRange(s);
    if n > 0 {
      ConsumeRefines(s);
      var s1 := Consume(s).0;
      ConsumeManyRefines(s1, n - 1);
      ModAdd(s.khead + 1, n - 1, U32);
    } else {
      ModSmall(s.khead, U32);
    }
  }

  lemma HeadInRange(s: Sq)
    requires Valid(s)
    ensures 0 <= s.khead < U32
  {
  }

  /** Entries lost to the kernel between the read of the head and its use are the lag of that read. */
  lemma LagOfStaleHead(s: Sq, n: nat)
    requires Valid(s) && n <= QueueLen(s)
    ensures s.khead == (ConsumeMany(s, n).khead - n) % U32
  {
    hide Valid, Queue, Staged, Range, Slot, QueueLen, StagedLen;
    ConsumeManyRefines(s, n);
    HeadInRange(s);
    ModAdd(s.khead + n, 0 - n, U32);
    ModSmall(s.khead, U32);
  }

  /** get_sqe while the kernel consumes `n` entries after the head was read. */
  lemma GetSqeWhileKernelRuns(s: Sq, n: nat)
    requires Valid(s) && n <= QueueLen(s)
    ensures var (s', r) := GetSqe(ConsumeMany(s, n), s.khead);
            && Valid(s') && Queue(s') == Queue(s)[n..]
            && (r.None? <==> |Queue(s)| + |Staged(s)| == s.entries)
            && (r.None? ==> Staged(s') == Staged(s))
            && (r.Some? ==>
                  && r.value < |s.sqes| && Staged(s') == Staged(s) + [Initialized(s.sqes[r.value])]
                  && r.value == Slot(s'.ktail + |Staged(s)|, s.entries, s.wide))
  {
    hide Valid, Range, Slot, GetSqe, ConsumeMany, Initialized;
    ConsumeManyRefines(s, n);
    LagOfStaleHead(s, n);
    SlackAfterConsume(s, ConsumeMany(s, n), n);
    GetSqeRefines(ConsumeMany(s, n), s.khead, n);
    assert Queue(GetSqe(ConsumeMany(s, n), s.khead).0) == Queue(ConsumeMany(s, n));
  }

  lemma SlackAfterConsume(s: Sq, s1: Sq, n: nat)
    requires Valid(s) && Valid(s1) && n <= QueueLen(s) && s1.entries == s.entries
    requires Queue(s1) == Queue(s)[n..] && Staged(s1) == Staged(s)
    ensures QueueLen(s1) + n == QueueLen(s) && StagedLen(s1) == StagedLen(s)
    ensures QueueLen(s1) + StagedLen(s1) + n <= s1.entries
  {
    assert |Queue(s1)| == |Queue(s)| - n;
  }

  /** The entry io_uring_prep_timeout writes, marked as liburing's own. */
  function TimeoutSqe(ts: int, count: int): Sqe {
    Sqe(OP_TIMEOUT, -1, count, ts, 1, UDATA_TIMEOUT, 0, 0, 0, 0, 0, 0, 0, 0)
  }

  /** io_uring_prep_timeout on an entry that get_sqe cleared. */
  function PrepTimeout(e: Sqe, ts: int, count: int): Sqe {
    SetData(PrepRw(e, OP_TIMEOUT, -1, ts, 1, count).(rwFlags := 0), UDATA_TIMEOUT)
  }

  lemma EmptyRing(s: Sq, order: nat)
    requires order <= 15 && s.entries == Pow2(order) && |s.sqes| == s.entries * Step(s.wide)
    requires s.sqeHead == s.sqeTail == s.khead == s.ktail == 0
    ensures Valid(s) && Queue(s) == [] && Staged(s) == []
  {
    hide Pow2;
    Pow2Monotone(order, 15);
    Pow2Divides(order, 32);
    PowerValues();
  }

  /** An io_uring_enter call of the submission side. */
  datatype EnterCall = EnterCall(submit: nat, waitNr: nat, getEvents: bool, wakeup: bool, ret: int)

  class Ring {
    const entries: nat
    const wide: bool
    const sqpoll: bool
    const sqes: array<Sqe>
    const slots: array<nat>
    var sqeHead: int
    var sqeTail: int
    var khead: int
    var ktail: int
    /** Every enter call made. */
    ghost var calls: seq<EnterCall>

    ghost function View(): Sq
      reads this`sqeHead, this`sqeTail, this`khead, this`ktail, sqes
    {
      Sq(entries, wide, sqes[..], sqeHead, sqeTail, khead, ktail)
    }

    /** The slot array maps every index to itself; nobody writes it after setup. */
    ghost predicate Ok()
      reads this`sqeHead, this`sqeTail, this`khead, this`ktail, sqes, slots
      ensures Ok() ==> SubmissionQueue.Valid(View())
    {
      && SubmissionQueue.Valid(View())
      && slots.Length == entries && forall i :: 0 <= i < entries ==> slots[i] == i
    }

    /** io_uring_queue_init: an empty ring, sq_array[index] = index. */
    constructor (order: nat, wide: bool, sqpoll: bool, blank: Sqe)
      requires order <= 15
      ensures Ok() && fresh(sqes) && fresh(slots)
      ensures entries == Pow2(order) && Queue(View()) == [] && Staged(View()) == []
    {
      var n := Pow2(order);
      entries, this.wide, this.sqpoll := n, wide, sqpoll;
      sqes := new Sqe[n * Step(wide)](_ => blank);
      slots := new nat[n];
      sqeHead, sqeTail, khead, ktail, calls := 0, 0, 0, 0, [];
      new;
      ghost var before := View();
      EmptyRing(before, order);
      hide Pow2, Queue, Staged, SubmissionQueue.Valid;
      for index := 0 to entries
        invariant View() == before
        invariant forall i :: 0 <= i < index ==> slots[i] == i
      {
        slots[index] := index;
      }
    }

    /** The kernel: entry number sq_array[khead & mask], then the head moves on. */
    method KernelConsume() returns (e: Sqe)
      requires Ok() && |Queue(View())| > 0
      modifies this`khead
      ensures Ok() && View() == Consume(old(View())).0 && e == Consume(old(View())).1
      ensures old(Queue(View())) == [e] + Queue(View()) && Staged(View()) == old(Staged(View()))
    {
      ConsumeRefines(View());
      e := sqes[slots[khead % entries] * Step(wide)];
      khead := (khead + 1) % U32;
    }

    /** `n` kernel steps. */
    method KernelRuns(n: nat)
      requires Ok() && n <= |Queue(View())|
      modifies this`khead
      ensures Ok() && View() == old(View()).(khead := (old(khead) + n) % U32)
      ensures Queue(View()) == old(Queue(View()))[n..] && Staged(View()) == old(Staged(View()))
    {
      hide Ok, Queue, Staged, Range, Slot, SubmissionQueue.Valid, QueueLen, StagedLen;
      ghost var s := View();
      HeadInRange(s);
      ModSmall(khead, U32);
      for i := 0 to n
        invariant Ok() && View() == s.(khead := (s.khead + i) % U32)
        invariant Queue(View()) == Queue(s)[i..] && Staged(View()) == Staged(s)
      {
        var _ := KernelConsume();
        ModAdd(s.khead + i, 1, U32);
      }
    }

    /**
     * _io_uring_get_sqe. The head is read once; the kernel then takes `steps` more entries before
     * the comparison, so the answer is about the ring as it was when the head was read.
     */
    method GetSqe(steps: nat) returns (k: Option<nat>)
      requires Ok() && steps <= |Queue(View())|
      modifies this`sqeTail, this`khead, sqes
      ensures Ok() && Queue(View()) == old(Queue(View()))[steps..]
      ensures k.None? <==> |old(Queue(View()))| + |old(Staged(View()))| == entries
      ensures k.None? ==> Staged(View()) == old(Staged(View())) && sqes[..] == old(sqes[..])
      ensures k.Some? ==>
                && k.value == Slot(ktail + |old(Staged(View()))|, entries, wide)
                && k.value < sqes.Length && sqes[k.value] == Initialized(old(sqes[..])[k.value])
                && Initialized(sqes[k.value]) == sqes[k.value]
                && Staged(View()) == old(Staged(View())) + [Initialized(old(sqes[..])[k.value])]
      ensures ktail == old(ktail)
    {
      hide Queue, Staged, Range, QueueLen, StagedLen, ConsumeMany, Initialized;
      ghost var s := View();
      GetSqeWhileKernelRuns(s, steps);
      ConsumeManyRefines(s, steps);
      var head, next := khead, (sqeTail + 1) % U32;
      KernelRuns(steps);
      if (next - head) % U32 <= entries {
        var slot := (sqeTail % entries) * Step(wide);
        sqeTail := next;
        sqes[slot] := Initialized(sqes[slot]);
        k := Some(slot);
        InitializedOnce(old(sqes[..])[slot]);
      } else {
        k := None;
      }
      assert (View(), k) == SubmissionQueue.GetSqe(ConsumeMany(s, steps), s.khead);
    }

    /** The program writes through a pointer it was given, that of its j-th staged entry. */
    method Fill(k: nat, e: Sqe, ghost j: nat)
      requires Ok() && j < |Staged(View())| && k == Slot(ktail + j, entries, wide)
      modifies sqes
      ensures Ok() && Queue(View()) == old(Queue(View())) && Staged(View()) == old(Staged(View()))[j := e]
    {
      FillRefines(View(), j, e);
      ghost var s := View();
      sqes[k] := e;
      assert View() == SubmissionQueue.Fill(s, k, e);
    }

    /** __io_uring_flush_sq; the kernel takes `steps` entries between the store of the tail and the read of the head. */
    method FlushSq(steps: nat) returns (pending: int)
      requires Ok() && steps <= |Queue(View())| + |Staged(View())|
      modifies this`sqeHead, this`ktail, this`khead
      ensures Ok() && Queue(View()) == (old(Queue(View())) + old(Staged(View())))[steps..] && Staged(View()) == []
      ensures pending == |Queue(View())|
    {
      hide Queue, Staged, Range;
      FlushRefines(View());
      var tail := sqeTail;
      if sqeHead != tail {
        sqeHead := tail;
        ktail := tail;
      }
      KernelRuns(steps);
      QueueIsDistance(View());
      pending := (tail - khead) % U32;
    }

    /** io_uring_enter with result `ret`. */
    method Enter(submit: nat, waitNr: nat, getEvents: bool, wakeup: bool, ret: int) returns (r: int)
      modifies this`calls
      ensures r == ret && calls == old(calls) + [EnterCall(submit, waitNr, getEvents, wakeup, ret)]
    {
      calls := calls + [EnterCall(submit, waitNr, getEvents, wakeup, ret)];
      r := ret;
    }

    /** The kernel has to be entered to submit: there is no thread of its own awake to fetch `pending` entries. */
    ghost predicate SubmitNeedsEnter(pending: nat, asleep: bool) {
      pending > 0 && (sqpoll ==> asleep)
    }

    /**
     * What a submit of `pending` entries does: it enters the kernel exactly if that is needed to
     * submit or completions are wanted or held back; the kernel's thread is woken exactly if it is
     * asleep and there is something for it; and the result is that of the call, or all of them.
     */
    ghost predicate Submits(
        before: seq<EnterCall>, after: seq<EnterCall>, ret: int,
        pending: nat, waitNr: nat, getEvents: bool, asleep: bool, heldBack: bool)
    {
      var events := getEvents || waitNr > 0 || heldBack;
      if SubmitNeedsEnter(pending, asleep) || events then
        after == before + [EnterCall(pending, waitNr, events, sqpoll && SubmitNeedsEnter(pending, asleep), ret)]
      else
        after == before && ret == pending
    }

    /**
     * io_uring_submit (waitNr 0, getEvents false), _and_wait and _and_get_events. The kernel takes
     * `took` entries during the call. `asleep` says that its thread is, `heldBack` that completions
     * are held back; `enter` is the result of a system call if one is made. Without a kernel thread
     * that result is what it took; with one it does not say what the thread took.
     */
    method Submit(waitNr: nat, getEvents: bool, asleep: bool, heldBack: bool, took: nat, enter: int) returns (ret: int)
      requires Ok() && took <= |Queue(View())| + |Staged(View())|
      requires enter <= |Queue(View())| + |Staged(View())|
      requires !sqpoll ==> took == if enter < 0 then 0 else enter
      modifies this`sqeHead, this`ktail, this`khead, this`calls
      ensures Ok() && Staged(View()) == []
      ensures Queue(View()) == (old(Queue(View())) + old(Staged(View())))[took..]
      ensures Submits(old(calls), calls, ret, |old(Queue(View()))| + |old(Staged(View()))|,
                      waitNr, getEvents, asleep, heldBack)
      ensures ret <= |old(Queue(View()))| + |old(Staged(View()))| && (calls != old(calls) || ret < 0 ==> ret == enter)
      ensures !sqpoll && ret >= 0 ==> ret == took
    {
      var submitted := FlushSq(0);
      var cqNeedsEnter := getEvents || waitNr != 0 || heldBack;
      var sqNeedsEnter, wakeup := submitted != 0 && !sqpoll, false;
      if submitted != 0 && sqpoll && asleep {
        sqNeedsEnter, wakeup := true, true;
      }
      if sqNeedsEnter || cqNeedsEnter {
        ret := Enter(submitted, waitNr, cqNeedsEnter, wakeup, enter);
      } else {
        ret := submitted;
      }
      KernelRuns(took);
    }

    /**
     * __io_uring_submit_timeout: everything staged goes to the kernel, then liburing's own timeout
     * as the last entry. When the ring was full this works exactly when room was made meanwhile. A
     * kernel thread takes s1 and s2 entries while get_sqe looks at the head the first and the
     * second time, and s3 during the flush.
     */
    method SubmitTimeout(
        ts: int, waitNr: int, asleep: bool, heldBack: bool, took: nat, enter: int, s1: nat, s2: nat, s3: nat)
      returns (ret: int, ghost submitted: int)
      requires Ok() && s1 <= |Queue(View())| && s1 + took + s2 + s3 <= |Queue(View())| + |Staged(View())|
      requires enter <= |Queue(View())| + |Staged(View())| - s1
      requires !sqpoll ==> s1 == s2 == s3 == 0 && took == if enter < 0 then 0 else enter
      modifies this`sqeHead, this`sqeTail, this`ktail, this`khead, this`calls, sqes
      ensures Ok() && Staged(View()) == []
      ensures var all := old(Queue(View())) + old(Staged(View()));
              var gone := s1 + if |all| == entries then took + s2 else 0;
              if ret >= 0 then Queue(View()) == (all[gone..] + [TimeoutSqe(ts, waitNr)])[s3..] && ret == |Queue(View())|
              else |all| == entries && (Queue(View()) == all[s1 + took..] || Queue(View()) == all[gone..])
      ensures ret < 0 ==> s1 + took == 0 || ret == enter
      ensures |old(Queue(View()))| + |old(Staged(View()))| < entries ==> calls == old(calls)
      ensures |old(Queue(View()))| + |old(Staged(View()))| == entries ==>
                && Submits(old(calls), calls, submitted, entries - s1, 0, false, asleep, heldBack)
                && (ret < 0 ==> ret == if submitted < 0 then submitted else -EAGAIN) && (submitted < 0 ==> ret < 0)
    {
      hide Ok, Queue, Staged, Slot, SubmissionQueue.Valid, Initialized, Submits, PrepTimeout, TimeoutSqe;
      var k;
      k, ret, submitted := SqeForTimeout(asleep, heldBack, took, enter, s1, s2);
      if k.None? {
        return;
      }
      PreparedTimeout(sqes[k.value], ts, waitNr);
      TimeoutLast(Queue(View()), Staged(View()), TimeoutSqe(ts, waitNr));
      Fill(k.value, PrepTimeout(sqes[k.value], ts, waitNr), |Staged(View())| - 1);
      ret := FlushSq(s3);
    }

    /** Its first half: an entry for the timeout, submitting what is staged when there is none. */
    method SqeForTimeout(asleep: bool, heldBack: bool, took: nat, enter: int, s1: nat, s2: nat)
      returns (k: Option<nat>, ret: int, ghost submitted: int)
      requires Ok() && s1 <= |Queue(View())| && s1 + took + s2 <= |Queue(View())| + |Staged(View())|
      requires enter <= |Queue(View())| + |Staged(View())| - s1
      requires !sqpoll ==> s1 == s2 == 0 && took == if enter < 0 then 0 else enter
      modifies this`sqeHead, this`sqeTail, this`ktail, this`khead, this`calls, sqes
      ensures Ok()
      ensures var all := old(Queue(View())) + old(Staged(View()));
              var gone := s1 + if |all| == entries then took + s2 else 0;
              if k.Some? then
                && |Staged(View())| > 0 && k.value == Slot(ktail + |Staged(View())| - 1, entries, wide)
                && k.value < sqes.Length && Initialized(sqes[k.value]) == sqes[k.value]
                && Queue(View()) + Staged(View())[..|Staged(View())| - 1] == all[gone..]
              else
                && |all| == entries && Staged(View()) == [] && ret < 0 && (s1 + took == 0 || ret == enter)
                && (Queue(View()) == all[s1 + took..] || Queue(View()) == all[gone..])
      ensures |old(Queue(View()))| + |old(Staged(View()))| < entries ==> calls == old(calls)
      ensures |old(Queue(View()))| + |old(Staged(View()))| == entries ==>
                && Submits(old(calls), calls, submitted, entries - s1, 0, false, asleep, heldBack)
                && (k.None? ==> ret == if submitted < 0 then submitted else -EAGAIN) && (submitted < 0 ==> k.None?)
    {
      hide Ok, Queue, Staged, Slot, SubmissionQueue.Valid, Initialized, Submits;
      ret, submitted := 0, 0;
      ghost var q, t := Queue(View()), Staged(View());
      DropTwice(q, t, s1, took, s2);
      k := GetSqe(s1);
      if k.Some? {
        ButLast(t, Staged(View()));
        return;
      }
      k, ret, submitted := SqeAfterSubmit(asleep, heldBack, took, enter, s2);
      if k.Some? {
        ButLast([], Staged(View()));
      }
    }

    /** The submit of a full ring, and the second look for an entry. */
    method SqeAfterSubmit(asleep: bool, heldBack: bool, took: nat, enter: int, s2: nat)
      returns (k: Option<nat>, ret: int, ghost submitted: int)
      requires Ok() && took + s2 <= |Queue(View())| + |Staged(View())| && enter <= |Queue(View())| + |Staged(View())|
      requires !sqpoll ==> took == if enter < 0 then 0 else enter
      modifies this`sqeHead, this`sqeTail, this`ktail, this`khead, this`calls, sqes
      ensures Ok()
      ensures var all := old(Queue(View())) + old(Staged(View()));
              if k.Some? then
                && |Staged(View())| == 1 && k.value == Slot(ktail, entries, wide)
                && k.value < sqes.Length && Initialized(sqes[k.value]) == sqes[k.value]
                && Queue(View()) == all[took..][s2..]
              else
                && Staged(View()) == [] && ret < 0 && (ret == enter || |all| - took == entries)
                && (Queue(View()) == all[took..] || Queue(View()) == all[took..][s2..])
      ensures Submits(old(calls), calls, submitted, |old(Queue(View()))| + |old(Staged(View()))|, 0, false, asleep, heldBack)
      ensures (k.None? ==> ret == if submitted < 0 then submitted else -EAGAIN) && (submitted < 0 ==> k.None?)
    {
      hide Ok, Queue, Staged, Slot, SubmissionQueue.Valid, Initialized, Submits;
      k := None;
      ret := Submit(0, false, asleep, heldBack, took, enter);
      submitted := ret;
      if ret < 0 {
        return;
      }
      k := GetSqe(s2);
      if k.None? {
        ret := -EAGAIN;
      }
    }
  }

  /** Replacing the last staged entry replaces the last of everything. */
  lemma TimeoutLast(q: seq<Sqe>, staged: seq<Sqe>, e: Sqe)
    requires staged != []
    ensures q + staged[|staged| - 1 := e] == q + staged[..|staged| - 1] + [e]
    ensures |q + staged[..|staged| - 1]| == |q| + |staged| - 1
  {
  }

  lemma ButLast(t: seq<Sqe>, u: seq<Sqe>)
    requires |u| == |t| + 1 && u[..|t|] == t
    ensures u[..|u| - 1] == t
  {
  }

  lemma InitializedOnce(e: Sqe)
    ensures Initialized(Initialized(e)) == Initialized(e)
  {
  }

  lemma PreparedTimeout(e: Sqe, ts: int, count: int)
    requires Initialized(e) == e
    ensures PrepTimeout(e, ts, count) == TimeoutSqe(ts, count)
  {
  }

  /** Taking s1 from the queue, then `took` and s2 from everything, in one cut. */
  lemma DropTwice(q: seq<Sqe>, t: seq<Sqe>, s1: nat, took: nat, s2: nat)
    requires s1 <= |q| && s1 + took + s2 <= |q| + |t|
    ensures q[s1..] + t == (q + t)[s1..]
    ensures (q[s1..] + t)[took..] == (q + t)[s1 + took..]
    ensures (q[s1..] + t)[took..][s2..] == (q + t)[s1 + took + s2..]
  {
  }

  lemma QueueIsDistance(s: Sq)
    requires Valid(s)
    ensures |Queue(s)| == (s.ktail - s.khead) % U32
    ensures Staged(s) == [] ==> s.ktail == s.sqeTail
  {
    if Staged(s) == [] {
      Offset(s.ktail, s.sqeTail, U32);
      ModSmall(s.ktail, U32);
    }
  }
}
