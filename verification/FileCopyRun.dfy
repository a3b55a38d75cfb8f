// copy_file of examples/io_uring-cp.c as it runs: one method per loop, the
// kernel's choices (which operation completes, with what result, whether a
// submit or an allocation fails) made freely within its contract.
module FileCopyRun {
  import opened Bytes
  import opened FileCopy

  /** The local variables of copy_file. */
  datatype Locals = Locals(insize: int, writeLeft: int, nrReads: int, nrWrites: int, offset: int)

  /** Ok: go on. Failed: copy_file returns 1. Blocked: the wait never returns. Exhausted: no fuel is left. */
  datatype Status = Ok | Failed | Blocked | AssertFailed | Exhausted

  /** Done: copy_file returned 0. Unfinished: it still runs when the fuel is used up. */
  datatype Ret = Done | Error | Hang | Abort | Unfinished

  /** Every outstanding operation's record is live and known to the ring exactly once. */
  ghost predicate Ops(w: World, count: int) {
    var m := multiset(w.sq) + w.inflight;
    && |m| == count
    && forall p :: p in m ==> m[p] == 1 && p < |w.heap| && w.heap[p].live
  }

  ghost predicate Counts(heap: seq<IoData>, l: Locals) {
    && l.nrReads == Sum(Reads, heap) >= 0 && l.nrWrites == Sum(Writes, heap) >= 0
    && l.writeLeft == l.insize + Sum(ReadBytes, heap)
    && 0 <= l.insize && l.nrReads + l.nrWrites <= QD
  }

  /** Records are freed only after their chunk is in the output file. */
  ghost predicate DeadDone(heap: seq<IoData>) {
    forall i :: 0 <= i < |heap| && !heap[i].live ==> Written(heap[i]) == heap[i].firstLen
  }

  ghost predicate Inv(w: World, l: Locals, input: seq<Byte>) {
    && DataOk(w.heap, w.output, input, l.offset) && l.offset + l.insize == |input|
    && Counts(w.heap, l) && DeadDone(w.heap)
    && Ops(w, l.nrReads + l.nrWrites)
    && (!w.trouble.submitShort ==> w.sq == [])
  }

  /** What is left to do, counted in bytes: twice what is not queued yet, and the rest of every chunk. */
  function Potential(w: World, l: Locals): int {
    2 * l.insize + Sum(WorkLeft, w.heap)
  }

  /** Every completion used up so far did some of the work or counts as a stall. */
  ghost predicate Within(w: World, l: Locals, budget: int) {
    Potential(w, l) - w.fuel <= budget + w.stalls
  }

  /** Only what may go wrong went wrong. */
  ghost predicate Permitted(w: World) {
    && (w.trouble.allocFailed ==> w.may.allocFailed) && (w.trouble.submitShort ==> w.may.submitShort)
    && (w.trouble.opFailed ==> w.may.opFailed) && (w.trouble.interrupted ==> w.may.interrupted)
    && (w.trouble.shortDrain ==> w.may.shortDrain)
    && (w.stalls > 0 ==> w.mayStall || w.trouble.opFailed || w.trouble.shortDrain)
  }

  /** From w to w' nothing went wrong that may not. */
  ghost predicate Fair(w: World, w': World) {
    w'.may == w.may && w'.mayStall == w.mayStall && (Permitted(w) ==> Permitted(w'))
  }

  lemma StaysFair(w: World)
    ensures Fair(w, w)
  {
  }

  lemma FairThen(w: World, w': World, w'': World)
    requires Fair(w, w') && Fair(w', w'')
    ensures Fair(w, w'')
  {
  }

  /** The same, when only a submit can have fallen short. */
  ghost predicate SubmitFair(w: World, w': World) {
    && w'.may == w.may && w'.mayStall == w.mayStall
    && (w'.trouble.submitShort ==> w.trouble.submitShort || w.may.submitShort)
  }

  // ---------- the ring ----------

  /** io_uring_get_sqe and the prep functions: fails exactly when the queue is full. */
  method PushSqe(w: World, p: nat) returns (w': World, ok: bool)
    ensures ok <==> |w.sq| < QD
    ensures w' == if ok then w.(sq := w.sq + [p]) else w
  {
    ok := |w.sq| < QD;
    w' := if ok then w.(sq := w.sq + [p]) else w;
  }

  function Refused(w: World): World {
    w.(trouble := w.trouble.(submitShort := true))
  }

  /** The kernel takes the first `n` requests. */
  function Submitted(w: World, n: nat): World
    requires n <= |w.sq|
  {
    w.(sq := w.sq[n..], inflight := w.inflight + multiset(w.sq[..n]),
       trouble := w.trouble.(submitShort := w.trouble.submitShort || n < |w.sq|))
  }

  /** io_uring_submit: the kernel takes a prefix of the queue, or refuses. */
  method Submit(w: World) returns (w': World, ret: int)
    ensures -1 <= ret <= |w.sq|
    ensures ret < |w.sq| ==> w.may.submitShort
    ensures w' == if ret < 0 then Refused(w) else Submitted(w, ret)
    ensures Fair(w, w')
  {
    ret :| -1 <= ret <= |w.sq| && (ret < |w.sq| ==> w.may.submitShort) by { assert -1 <= |w.sq| <= |w.sq|; }
    if ret < 0 {
      w' := w.(trouble := w.trouble.(submitShort := true));
    } else {
      w' := w.(sq := w.sq[ret..], inflight := w.inflight + multiset(w.sq[..ret]),
               trouble := w.trouble.(submitShort := w.trouble.submitShort || ret < |w.sq|));
    }
  }

  lemma SubmitKeepsOps(w: World, w': World, ret: int, count: int)
    requires Ops(w, count) && -1 <= ret <= |w.sq| && w'.heap == w.heap
    requires ret < 0 ==> w'.sq == w.sq && w'.inflight == w.inflight
    requires ret >= 0 ==> w'.sq == w.sq[ret..] && w'.inflight == w.inflight + multiset(w.sq[..ret])
    ensures Ops(w', count) && multiset(w'.sq) + w'.inflight == multiset(w.sq) + w.inflight
  {
    if ret >= 0 {
      assert w.sq == w.sq[..ret] + w.sq[ret..];
      assert multiset(w'.sq) + w'.inflight == multiset(w.sq) + w.inflight;
    }
  }

  /** The completion of record p's operation is taken off the ring. */
  function Popped(w: World, p: nat, res: int): World {
    w.(inflight := w.inflight - multiset{p}, fuel := if w.fuel > 0 then w.fuel - 1 else 0,
       stalls := w.stalls + if res <= 0 then 1 else 0)
  }

  /** What the kernel does when record p's operation completes with `res`. */
  function Taken(w: World, p: nat, res: int, input: seq<Byte>): World
    requires p < |w.heap|
  {
    if res < 0 then Popped(w, p, res) else Transfer(Popped(w, p, res), p, res, input)
  }

  /** Which completions may come: failed ones, -EAGAIN, empty ones, short ones. */
  datatype Leave = Leave(fail: bool, again: bool, zero: bool, short: bool)

  /** A result for an operation that asked for `want` bytes. */
  predicate Allowed(res: int, want: int, leave: Leave) {
    && res <= want
    && (res < 0 ==> if res == EAGAIN then leave.again else leave.fail)
    && (res == 0 ==> leave.zero)
    && (0 <= res < want ==> leave.short)
  }

  /** Some submitted operation completes: with an error, or having moved no more than it asked for. */
  method Reap(w: World, input: seq<Byte>, leave: Leave) returns (w': World, p: nat, res: int)
    requires w.fuel > 0 && |w.inflight| > 0
    requires forall q :: q in w.inflight ==> q < |w.heap| && w.heap[q].iovLen > 0
    ensures p in w.inflight && p < |w.heap| && Allowed(res, w.heap[p].iovLen, leave)
    ensures w' == Taken(w, p, res, input)
  {
    p :| p in w.inflight;
    res :| -4095 <= res <= w.heap[p].iovLen && Allowed(res, w.heap[p].iovLen, leave) by {
      assert Allowed(w.heap[p].iovLen, w.heap[p].iovLen, leave);
    }
    w' := Taken(w, p, res, input);
  }

  // ---------- one completion ----------

  lemma TakeOps(w: World, p: nat, count: int)
    requires Ops(w, count) && p in w.inflight
    ensures var w1 := w.(inflight := w.inflight - multiset{p});
            && Ops(w1, count - 1) && p !in multiset(w1.sq) + w1.inflight
            && multiset(w1.sq) + w1.inflight + multiset{p} == multiset(w.sq) + w.inflight
            && |w1.sq| <= count - 1 && p < |w.heap| && w.heap[p].live
  {
    var m := multiset(w.sq) + w.inflight;
    var w1 := w.(inflight := w.inflight - multiset{p});
    assert multiset(w1.sq) + w1.inflight == m - multiset{p};
    assert m[p] == 1;
  }

  /** Requeueing record p after it completed restores the set of outstanding operations. */
  lemma RequeueOps(w: World, w': World, p: nat, d: IoData, count: int)
    requires Ops(w, count) && p in w.inflight && p < |w.heap| && d.live
    requires w'.heap == w.heap[p := d]
    requires w'.sq == w.sq + [p] && w'.inflight == w.inflight - multiset{p}
    ensures Ops(w', count) && multiset(w'.sq) + w'.inflight == multiset(w.sq) + w.inflight
  {
    TakeOps(w, p, count);
    assert multiset(w'.sq) + w'.inflight == multiset(w.sq) + w.inflight;
  }

  lemma FreeOps(w: World, w': World, p: nat, d: IoData, count: int)
    requires Ops(w, count) && p in w.inflight && p < |w.heap|
    requires w'.heap == w.heap[p := d] && w'.sq == w.sq && w'.inflight == w.inflight - multiset{p}
    ensures Ops(w', count - 1)
  {
    TakeOps(w, p, count);
    assert multiset(w'.sq) + w'.inflight == multiset(w.sq) + w.inflight - multiset{p};
  }

  /** The accounting after record p was completed with `res` bytes. */
  function Accounted(l: Locals, d: IoData, res: int): Locals {
    if res != d.iovLen then l
    else if d.read then l.(writeLeft := l.writeLeft - d.firstLen, nrReads := l.nrReads - 1, nrWrites := l.nrWrites + 1)
    else l.(nrWrites := l.nrWrites - 1)
  }

  lemma CompletionKeepsCounts(
      heap: seq<IoData>, output: map<int, Byte>, l: Locals, p: nat, d': IoData, input: seq<Byte>, res: nat)
    requires Counts(heap, l) && DeadDone(heap) && p < |heap| && DataOk(heap, output, input, l.offset)
    requires heap[p].live && res <= heap[p].iovLen
    requires d' == Completed(Transferred(heap[p], input, res), res)
    ensures Counts(heap[p := d'], Accounted(l, heap[p], res)) && DeadDone(heap[p := d'])
    ensures Sum(WorkLeft, heap[p := d']) == Sum(WorkLeft, heap) - res
  {
    SumUpdate(Reads, heap, p, d');
    SumUpdate(Writes, heap, p, d');
    SumUpdate(ReadBytes, heap, p, d');
    SumUpdate(WorkLeft, heap, p, d');
    CompletionDoesWork(heap[p], input, res);
    CountsNonNegative(heap[p := d']);
  }

  lemma CountsNonNegative(heap: seq<IoData>)
    ensures Sum(Reads, heap) >= 0 && Sum(Writes, heap) >= 0 && Sum(ReadBytes, heap) >= 0
  {
    SumZero(Reads, heap);
    SumZero(Writes, heap);
    SumZero(ReadBytes, heap);
  }

  /** What a handler may assume and must restore of the world around record p. */
  ghost predicate SameFiles(w: World, w': World) {
    w'.heap == w.heap && w'.output == w.output && w'.fuel == w.fuel && w'.stalls == w.stalls &&
    w'.trouble == w.trouble.(submitShort := w'.trouble.submitShort)
  }

  /** queue_prepped and io_uring_submit for the completed record p: the assertion on the SQE never fires. */
  method Requeue(w: World, p: nat, ghost d: IoData, ghost w0: World, ghost count: int)
    returns (w': World, status: Status)
    requires Ops(w0, count) && count <= QD && p in w0.inflight && p < |w0.heap|
    requires w.sq == w0.sq && w.inflight == w0.inflight - multiset{p}
    requires d.live && w.heap == w0.heap[p := d]
    requires !w.trouble.submitShort ==> w.sq == []
    ensures status == Ok && Ops(w', count) && SameFiles(w, w') && SubmitFair(w, w')
    ensures multiset(w'.sq) + w'.inflight == multiset(w0.sq) + w0.inflight
    ensures !w'.trouble.submitShort ==> w'.sq == []
  {
    var ok, ret;
    TakeOps(w0, p, count);
    w', ok := PushSqe(w, p);
    if !ok {
      return w', AssertFailed;
    }
    RequeueOps(w0, w', p, d, count);
    ghost var w1 := w';
    w', ret := Submit(w');
    SubmitKeepsOps(w1, w', ret, count);
    status := Ok;
  }

  /** What a completion of `res` bytes does, stated on the world before it. */
  lemma CompletionKeepsInv(w0: World, l: Locals, p: nat, res: nat, input: seq<Byte>)
    requires Inv(w0, l, input) && p in w0.inflight && p < |w0.heap| && res <= w0.heap[p].iovLen
    ensures var w' := AfterCompletion(w0, p, res, input);
            var l' := Accounted(l, w0.heap[p], res);
            && DataOk(w'.heap, w'.output, input, l.offset)
            && Counts(w'.heap, l') && DeadDone(w'.heap)
            && Sum(WorkLeft, w'.heap) == Sum(WorkLeft, w0.heap) - res
            && w'.heap == w0.heap[p := w'.heap[p]]
            && (w'.heap[p].live <==> !(res == w0.heap[p].iovLen && !w0.heap[p].read))
  {
    hide DataOk, Counts, DeadDone;
    TakeOps(w0, p, l.nrReads + l.nrWrites);
    CompletionKeepsData(w0, p, res, input, l.offset);
    var d' := Completed(Transferred(w0.heap[p], input, res), res);
    CompletionKeepsCounts(w0.heap, w0.output, l, p, d', input, res);
  }

  /** The world around a handled completion: only the record, the queues and the submit trouble changed. */
  ghost predicate Handled(w0: World, l: Locals, p: nat, res: nat, input: seq<Byte>, w': World, l': Locals)
    requires p < |w0.heap|
  {
    var after := AfterCompletion(w0, p, res, input);
    && w'.heap == after.heap && w'.output == after.output
    && l' == Accounted(l, w0.heap[p], res)
    && Ops(w', l'.nrReads + l'.nrWrites)
    && (!w'.trouble.submitShort ==> w'.sq == [])
  }

  /** The world the handlers find: only record p, the ring and the output differ from the world before. */
  lemma TakenIs(w0: World, p: nat, res: nat, input: seq<Byte>)
    requires p < |w0.heap|
    ensures var w, after := Taken(w0, p, res, input), AfterCompletion(w0, p, res, input);
            && w.sq == w0.sq && w.inflight == w0.inflight - multiset{p} && w.trouble == w0.trouble
            && |w.heap| == |w0.heap| && w.heap == w0.heap[p := w.heap[p]]
            && w.heap[p].(buf := w0.heap[p].buf) == w0.heap[p]
            && after.heap == w0.heap[p := Completed(w.heap[p], res)] && after.output == w.output
  {
    var w := Taken(w0, p, res, input);
    assert w.heap == w0.heap[p := w.heap[p]];
  }

  /** A failed operation moved nothing. */
  lemma FailedTake(w0: World, p: nat, res: int, input: seq<Byte>)
    requires p < |w0.heap|
    ensures var w := Taken(w0, p, res, input); |w.heap| == |w0.heap| && (res < 0 ==> w == Popped(w0, p, res))
  {
  }

  /** A short read or write: adjust the record and queue it again. */
  method HandleShort(w: World, ghost l: Locals, p: nat, res: nat, input: seq<Byte>, ghost w0: World)
    returns (w': World, status: Status)
    requires Inv(w0, l, input) && p in w0.inflight && p < |w0.heap| && res < w0.heap[p].iovLen
    requires w == Taken(w0, p, res, input)
    ensures status == Ok && Handled(w0, l, p, res, input, w', l)
    ensures w'.fuel == w.fuel && w'.stalls == w.stalls && SubmitFair(w, w')
    ensures w'.trouble == w.trouble.(submitShort := w'.trouble.submitShort)
  {
    hide DataOk, DeadDone, Ops, Counts, Taken, AfterCompletion;
    TakenIs(w0, p, res, input);
    var d := w.heap[p];
    TakeOps(w0, p, l.nrReads + l.nrWrites);
    CountsBounded(w0.heap, l);
    d := d.(iovBase := d.iovBase + res, iovLen := d.iovLen - res, offset := d.offset + res);
    w' := w.(heap := w.heap[p := d]);
    assert w'.heap == w0.heap[p := d];
    w', status := Requeue(w', p, w'.heap[p], w0, l.nrReads + l.nrWrites);
  }

  /** queue_write: the finished read's record now writes the same chunk. */
  method QueueWrite(w: World, l: Locals, p: nat, res: nat, input: seq<Byte>, ghost w0: World)
    returns (w': World, l': Locals, status: Status)
    requires Inv(w0, l, input) && p in w0.inflight && p < |w0.heap| && res == w0.heap[p].iovLen
    requires w == Taken(w0, p, res, input) && w0.heap[p].read
    ensures status == Ok && Handled(w0, l, p, res, input, w', l')
    ensures w'.fuel == w.fuel && w'.stalls == w.stalls && SubmitFair(w, w')
    ensures w'.trouble == w.trouble.(submitShort := w'.trouble.submitShort)
  {
    hide DataOk, DeadDone, Ops, Counts, Taken, AfterCompletion;
    TakenIs(w0, p, res, input);
    var d := w.heap[p];
    TakeOps(w0, p, l.nrReads + l.nrWrites);
    CountsBounded(w0.heap, l);
    d := d.(read := false, offset := d.firstOffset, iovBase := 0, iovLen := d.firstLen);
    w' := w.(heap := w.heap[p := d]);
    assert w'.heap == w0.heap[p := d];
    w', status := Requeue(w', p, d, w0, l.nrReads + l.nrWrites);
    l' := l.(writeLeft := l.writeLeft - d.firstLen, nrReads := l.nrReads - 1, nrWrites := l.nrWrites + 1);
  }

  /** The chunk is written: its record is freed. */
  method FinishWrite(w: World, l: Locals, p: nat, res: nat, input: seq<Byte>, ghost w0: World)
    returns (w': World, l': Locals)
    requires Inv(w0, l, input) && p in w0.inflight && p < |w0.heap| && res == w0.heap[p].iovLen
    requires w == Taken(w0, p, res, input) && !w0.heap[p].read
    ensures Handled(w0, l, p, res, input, w', l') && SameButHeap(w, w')
  {
    hide DataOk, DeadDone, Ops, Counts, Taken, AfterCompletion;
    TakenIs(w0, p, res, input);
    var d := Freed(w.heap[p], res);
    w' := w.(heap := w.heap[p := d]);
    assert w'.heap == w0.heap[p := d];
    FreeOps(w0, w', p, d, l.nrReads + l.nrWrites);
    l' := l.(nrWrites := l.nrWrites - 1);
  }

  ghost predicate SameButHeap(w: World, w': World) {
    w' == w.(heap := w'.heap)
  }

  /** A full transfer: a read is turned into the write of the same chunk, a write is done. */
  method HandleFull(w: World, l: Locals, p: nat, res: nat, input: seq<Byte>, ghost w0: World)
    returns (w': World, l': Locals, status: Status)
    requires Inv(w0, l, input) && p in w0.inflight && p < |w0.heap| && res == w0.heap[p].iovLen
    requires w == Taken(w0, p, res, input)
    ensures status == Ok && Handled(w0, l, p, res, input, w', l')
    ensures w'.fuel == w.fuel && w'.stalls == w.stalls && SubmitFair(w, w')
    ensures w'.trouble == w.trouble.(submitShort := w'.trouble.submitShort)
  {
    hide Inv, Taken, AfterCompletion, Handled;
    TakenIs(w0, p, res, input);
    if w.heap[p].read {
      w', l', status := QueueWrite(w, l, p, res, input, w0);
    } else {
      w', l' := FinishWrite(w, l, p, res, input, w0);
      status := Ok;
    }
  }

  /** -EAGAIN: the same request is queued again. */
  method Again(w: World, ghost l: Locals, p: nat, input: seq<Byte>, ghost w0: World)
    returns (w': World, status: Status)
    requires Inv(w0, l, input) && p in w0.inflight && p < |w0.heap| && w == Popped(w0, p, EAGAIN)
    ensures status == Ok && Inv(w', l, input) && SameFiles(w, w') && SubmitFair(w, w')
  {
    hide Inv, Ops;
    AgainReady(w0, l, p, input);
    w', status := Requeue(w, p, w.heap[p], w0, l.nrReads + l.nrWrites);
    SameRecordsKeepInv(w0, w', l, input);
  }

  lemma AgainReady(w: World, l: Locals, p: nat, input: seq<Byte>)
    requires Inv(w, l, input) && p in w.inflight && p < |w.heap|
    ensures Ops(w, l.nrReads + l.nrWrites) && l.nrReads + l.nrWrites <= QD && w.heap[p].live
    ensures w.heap == w.heap[p := w.heap[p]] && (!w.trouble.submitShort ==> w.sq == [])
  {
    hide DataOk, Counts, DeadDone, Ops;
    TakeOps(w, p, l.nrReads + l.nrWrites);
    CountsBounded(w.heap, l);
  }

  lemma SameRecordsKeepInv(w: World, w': World, l: Locals, input: seq<Byte>)
    requires Inv(w, l, input) && w'.heap == w.heap && w'.output == w.output
    requires Ops(w', l.nrReads + l.nrWrites) && (!w'.trouble.submitShort ==> w'.sq == [])
    ensures Inv(w', l, input)
  {
    hide DataOk, Counts, DeadDone, Ops;
  }

  /** The body of the completion loop: a short transfer goes on, a read turns into a write, a write ends. */
  method HandleCompletion(w: World, l: Locals, p: nat, res: int, input: seq<Byte>, ghost w0: World)
    returns (w': World, l': Locals, status: Status)
    requires Inv(w0, l, input) && p in w0.inflight && p < |w0.heap| && res <= w0.heap[p].iovLen
    requires w == Taken(w0, p, res, input)
    ensures w'.fuel == w.fuel && w'.stalls == w.stalls
    ensures status == Ok ==> SubmitFair(w, w') && w'.trouble == w.trouble.(submitShort := w'.trouble.submitShort)
    ensures status == (if res < 0 && res != EAGAIN then Failed else Ok)
    ensures status == Failed ==> w' == w.(trouble := w.trouble.(opFailed := true)) && l' == l
    ensures status == Ok && res < 0 ==> l' == l && w'.heap == w0.heap && w'.output == w0.output && Inv(w', l', input)
    ensures status == Ok && res >= 0 ==> Handled(w0, l, p, res, input, w', l') && Inv(w', l', input)
    ensures status == Ok && res >= 0 ==> Sum(WorkLeft, w'.heap) == Sum(WorkLeft, w0.heap) - res
  {
    hide DataOk, Counts, DeadDone, Ops, Sum, Taken, AfterCompletion;
    l' := l;
    FailedTake(w0, p, res, input);
    if res < 0 {
      if res != EAGAIN {
        return w.(trouble := w.trouble.(opFailed := true)), l, Failed;
      }
      w', status := Again(w, l, p, input, w0);
    } else {
      CompletionKeepsInv(w0, l, p, res, input);
      TakenIs(w0, p, res, input);
      if res != w.heap[p].iovLen {
        w', status := HandleShort(w, l, p, res, input, w0);
      } else {
        w', l', status := HandleFull(w, l, p, res, input, w0);
      }
    }
  }

  lemma CountsBounded(heap: seq<IoData>, l: Locals)
    requires Counts(heap, l)
    ensures l.nrReads + l.nrWrites <= QD && l.nrReads >= 0 && l.nrWrites >= 0 && l.insize >= 0
    ensures l.writeLeft >= l.insize
  {
    CountsNonNegative(heap);
  }

  // ---------- the three loops ----------

  lemma AppendKeepsCounts(heap: seq<IoData>, l: Locals, size: nat, garbage: seq<Byte>)
    requires Counts(heap, l) && DeadDone(heap) && l.nrReads + l.nrWrites < QD && size <= l.insize && l.offset >= 0
    ensures var heap' := heap + [NewRead(size, l.offset, garbage)];
            && DeadDone(heap')
            && Counts(heap', l.(insize := l.insize - size, offset := l.offset + size, nrReads := l.nrReads + 1))
  {
    var d := NewRead(size, l.offset, garbage);
    SumAppend(Reads, heap, d);
    SumAppend(Writes, heap, d);
    SumAppend(ReadBytes, heap, d);
  }

  lemma AppendKeepsOps(w: World, size: nat, offset: nat, garbage: seq<Byte>, count: int)
    requires Ops(w, count)
    ensures Ops(w.(heap := w.heap + [NewRead(size, offset, garbage)], sq := w.sq + [|w.heap|]), count + 1)
  {
    var m, d := multiset(w.sq) + w.inflight, NewRead(size, offset, garbage);
    var w' := w.(heap := w.heap + [d], sq := w.sq + [|w.heap|]);
    assert multiset(w'.sq) + w'.inflight == m + multiset{|w.heap|};
    assert |w.heap| !in m;
  }

  /** The record queued last is a read that has not begun. */
  ghost predicate LastIsNewRead(heap: seq<IoData>, sq: seq<nat>) {
    |sq| > 0 && sq[|sq| - 1] < |heap| && heap[sq[|sq| - 1]].read && heap[sq[|sq| - 1]].live
  }

  /** A new record and its read, not submitted yet. */
  function WithRead(w: World, size: nat, offset: nat, garbage: seq<Byte>): World {
    w.(heap := w.heap + [NewRead(size, offset, garbage)], sq := w.sq + [|w.heap|])
  }

  /** queue_read: allocate a record for the next chunk and queue its read. */
  method QueueRead(w: World, size: nat, offset: nat, garbage: int -> Byte) returns (w': World, failed: bool)
    requires |w.sq| < QD
    ensures failed ==> w.may.allocFailed && w' == w.(trouble := w.trouble.(allocFailed := true))
    ensures !failed ==> w' == WithRead(w, size, offset, seq(size, i => garbage(i)))
    ensures !failed ==> LastIsNewRead(w'.heap, w'.sq)
    ensures Fair(w, w') && w'.output == w.output && w'.fuel == w.fuel && w'.stalls == w.stalls
    ensures failed ==> w'.heap == w.heap
    ensures w'.trouble == w.trouble.(allocFailed := w'.trouble.allocFailed)
  {
    var gotMemory := *;
    if !gotMemory && w.may.allocFailed {
      return w.(trouble := w.trouble.(allocFailed := true)), true;
    }
    var p := |w.heap|;
    var ok;
    w', ok := PushSqe(w, p);
    failed := !ok;
    if ok {
      w' := w'.(heap := w'.heap + [NewRead(size, offset, seq(size, i => garbage(i)))]);
    }
  }

  /** The invariant between queueing reads and submitting them: the queue need not be empty. */
  ghost predicate Filling(w: World, l: Locals, input: seq<Byte>) {
    && DataOk(w.heap, w.output, input, l.offset) && l.offset + l.insize == |input|
    && Counts(w.heap, l) && DeadDone(w.heap)
    && Ops(w, l.nrReads + l.nrWrites)
  }

  lemma QueueReadKeepsFilling(
      w: World, l: Locals, w': World, l': Locals, input: seq<Byte>, size: nat, offset: nat, garbage: seq<Byte>)
    requires Filling(w, l, input) && 0 < size <= l.insize && |garbage| == size && l.nrReads + l.nrWrites < QD
    requires offset == l.offset
    requires w' == WithRead(w, size, offset, garbage)
    requires l' == l.(insize := l.insize - size, offset := l.offset + size, nrReads := l.nrReads + 1)
    ensures Filling(w', l', input) && Potential(w', l') == Potential(w, l)
  {
    hide DataOk, Counts, DeadDone, Ops, Sum;
    SumAppend(WorkLeft, w.heap, NewRead(size, offset, garbage));
    QueueReadKeepsData(w.heap, w.output, input, offset, size, garbage);
    AppendKeepsCounts(w.heap, l, size, garbage);
    AppendKeepsOps(w, size, offset, garbage, l.nrReads + l.nrWrites);
  }

  lemma FillingBounds(w: World, l: Locals, input: seq<Byte>)
    requires Filling(w, l, input)
    ensures 0 <= l.offset <= |input| && l.insize == |input| - l.offset && |w.sq| <= l.nrReads + l.nrWrites <= QD
    ensures 0 <= l.nrReads && 0 <= l.nrWrites && l.insize <= l.writeLeft
  {
    CountsNonNegative(w.heap);
  }

  /** A failed allocation changes nothing but what went wrong. */
  lemma NoRecordKeepsFilling(w: World, w': World, l: Locals, input: seq<Byte>)
    requires Filling(w, l, input) && w' == w.(trouble := w'.trouble)
    ensures Filling(w', l, input)
  {
    hide DataOk, Counts, DeadDone;
  }

  /** The records from number `from` on are for chunks of BS bytes, or of what is left of the input. */
  ghost predicate Chunked(heap: seq<IoData>, from: nat, input: seq<Byte>) {
    forall i :: from <= i < |heap| ==>
      var rest := |input| - heap[i].firstOffset;
      heap[i].firstLen == if rest > BS then BS else rest
  }

  lemma NothingQueued(heap: seq<IoData>, input: seq<Byte>)
    ensures Chunked(heap, |heap|, input)
  {
  }

  lemma ChunkQueued(w: World, w': World, size: nat, offset: nat, garbage: seq<Byte>, from: nat, input: seq<Byte>)
    requires Chunked(w.heap, from, input) && w' == WithRead(w, size, offset, garbage)
    requires size == if |input| - offset > BS then BS else |input| - offset
    ensures Chunked(w'.heap, from, input)
  {
  }

  /** The first loop: queue reads until the input is covered, the ring is full or memory runs out. */
  method FillQueue(w: World, l: Locals, input: seq<Byte>, garbage: int -> Byte, ghost budget: int)
    returns (w': World, l': Locals)
    requires Inv(w, l, input) && Within(w, l, budget)
    ensures Filling(w', l', input)
    ensures l'.insize == 0 || l'.nrReads + l'.nrWrites >= QD || w'.trouble.allocFailed
    ensures Chunked(w'.heap, |w.heap|, input)
    ensures l'.writeLeft == l.writeLeft && w'.fuel == w.fuel && w'.output == w.output
    ensures Within(w', l', budget) && Fair(w, w') && w'.trouble == w.trouble.(allocFailed := w'.trouble.allocFailed)
    ensures if l'.nrReads == l.nrReads then w'.sq == w.sq else LastIsNewRead(w'.heap, w'.sq)
  {
    hide DataOk, Counts, DeadDone, Ops, LastIsNewRead, NewRead, Sum, Fair, WithRead, Chunked;
    w', l' := w, l;
    NothingQueued(w.heap, input);
    StaysFair(w);
    assert Filling(w', l', input);
    FillingBounds(w', l', input);
    hide Filling, Inv;
    while l'.insize != 0
      invariant Filling(w', l', input)
      invariant l'.writeLeft == l.writeLeft && w'.fuel == w.fuel && w'.output == w.output
      invariant w'.stalls == w.stalls && Potential(w', l') == Potential(w, l)
      invariant Fair(w, w') && w'.trouble == w.trouble.(allocFailed := w'.trouble.allocFailed)
      invariant l'.nrReads >= l.nrReads
      invariant if l'.nrReads == l.nrReads then w'.sq == w.sq else LastIsNewRead(w'.heap, w'.sq)
      invariant l'.insize >= 0 && Chunked(w'.heap, |w.heap|, input)
      decreases l'.insize
    {
      FillingBounds(w', l', input);
      var thisSize := l'.insize;
      if l'.nrReads + l'.nrWrites >= QD {
        break;
      }
      if thisSize > BS {
        thisSize := BS;
      } else if thisSize == 0 {
        break;
      }
      ghost var w1 := w';
      ghost var l1 := l';
      var failed;
      w', failed := QueueRead(w', thisSize, l'.offset, garbage);
      FairThen(w, w1, w');
      if failed {
        NoRecordKeepsFilling(w1, w', l', input);
        break;
      }
      ChunkQueued(w1, w', thisSize, l1.offset, seq(thisSize, i => garbage(i)), |w.heap|, input);
      l' := l'.(insize := l'.insize - thisSize, offset := l'.offset + thisSize, nrReads := l'.nrReads + 1);
      QueueReadKeepsFilling(w1, l1, w', l', input, thisSize, l1.offset, seq(thisSize, i => garbage(i)));
    }
  }

  /** Submitting what was queued establishes the invariant, unless the submit was refused. */
  lemma SubmitEstablishesInv(w: World, w': World, ret: int, l: Locals, input: seq<Byte>, budget: int)
    requires Filling(w, l, input) && Within(w, l, budget) && 0 <= ret <= |w.sq|
    requires w' == Submitted(w, ret)
    ensures Inv(w', l, input) && Within(w', l, budget)
  {
    hide DataOk, Counts, DeadDone;
    SubmitKeepsOps(w, w', ret, l.nrReads + l.nrWrites);
  }

  lemma ReapReady(w: World, l: Locals, input: seq<Byte>)
    requires Inv(w, l, input)
    ensures forall q :: q in w.inflight ==> q < |w.heap| && w.heap[q].iovLen > 0
    ensures |w.inflight| == 0 && !w.trouble.submitShort ==> l.nrReads + l.nrWrites == 0
  {
    forall q | q in w.inflight ensures q < |w.heap| && w.heap[q].iovLen > 0 {
      assert q in multiset(w.sq) + w.inflight;
      assert ChunkOk(w.heap[q], input);
    }
  }

  /** What the completion loop has done when it stops. */
  ghost predicate Progressed(w: World, l: Locals, w': World, l': Locals, status: Status, input: seq<Byte>, budget: int) {
    && w'.trouble.allocFailed == w.trouble.allocFailed && w'.trouble.shortDrain == w.trouble.shortDrain
    && (status == Ok ==> Inv(w', l', input) && w'.fuel < w.fuel && Within(w', l', budget))
    && (status == Failed ==> w'.trouble.opFailed || w'.trouble.interrupted)
    && (status == Blocked ==> w'.trouble.submitShort || l.nrReads + l.nrWrites == 0)
    && (status == Exhausted ==> 0 <= budget + w'.stalls)
    && status != AssertFailed && Fair(w, w')
    && OutputRight(w'.output, input, l.offset)
  }

  /** The completion loop: wait for one completion, then take whatever else is ready. */
  method ReapLoop(w: World, l: Locals, input: seq<Byte>, ghost budget: int)
    returns (w': World, l': Locals, status: Status)
    requires Inv(w, l, input) && l.writeLeft > 0 && Within(w, l, budget)
    ensures Progressed(w, l, w', l', status, input, budget)
    ensures l'.insize == l.insize && l'.offset == l.offset
  {
    hide DataOk, Counts, DeadDone, Ops, Taken, Sum, OutputRight, Within;
    var gotComp := false;
    w', l', status := w, l, Ok;
    RightOutput(w, l, input);
    while l'.writeLeft != 0
      invariant status == Ok && Inv(w', l', input) && OutputRight(w'.output, input, l.offset)
      invariant l'.insize == l.insize && l'.offset == l.offset && Within(w', l', budget)
      invariant w'.trouble.allocFailed == w.trouble.allocFailed && w'.trouble.shortDrain == w.trouble.shortDrain
      invariant (if gotComp then w'.fuel < w.fuel else w' == w && l' == l) && Fair(w, w')
      decreases w'.fuel
    {
      ReapReady(w', l', input);
      var waitFails := *;
      if waitFails && w'.may.interrupted {
        return w'.(trouble := w'.trouble.(interrupted := true)), l', Failed;
      }
      if !gotComp {
        if |w'.inflight| == 0 {
          return w', l', Blocked;
        }
        if w'.fuel == 0 {
          SpentMeansStalled(w', l', input, budget);
          return w', l', Exhausted;
        }
        gotComp := true;
      } else {
        var ready := *;
        if !ready || w'.fuel == 0 || |w'.inflight| == 0 {
          break;
        }
      }
      w', l', status := ReapOne(w', l', input, budget);
      if status != Ok {
        return;
      }
    }
  }

  /** One completion taken and handled: it uses up fuel and does work, or it counts as a stall. */
  method ReapOne(w: World, l: Locals, input: seq<Byte>, ghost budget: int)
    returns (w': World, l': Locals, status: Status)
    requires Inv(w, l, input) && Within(w, l, budget) && w.fuel > 0 && |w.inflight| > 0
    requires forall q :: q in w.inflight ==> q < |w.heap| && w.heap[q].iovLen > 0
    ensures w'.trouble.allocFailed == w.trouble.allocFailed && w'.trouble.shortDrain == w.trouble.shortDrain
    ensures w'.fuel == w.fuel - 1 && l'.insize == l.insize && l'.offset == l.offset
    ensures status == Ok || (status == Failed && w'.trouble.opFailed)
    ensures status == Ok ==> Inv(w', l', input) && Within(w', l', budget)
    ensures OutputRight(w'.output, input, l.offset) && Fair(w, w')
  {
    hide DataOk, Counts, DeadDone, Ops, Sum, OutputRight, Taken, Transfer, AfterCompletion;
    var p, res;
    w', p, res := Reap(w, input, Leave(w.may.opFailed, w.mayStall, w.mayStall, true));
    TakenOutput(w, p, res, l, input);
    w', l', status := HandleCompletion(w', l, p, res, input, w);
    if status == Ok {
      RightOutput(w', l', input);
    }
  }

  /** With no fuel left, the completions used up are no more than the work and the stalls. */
  lemma SpentMeansStalled(w: World, l: Locals, input: seq<Byte>, budget: int)
    requires Inv(w, l, input) && Within(w, l, budget) && w.fuel == 0
    ensures 0 <= budget + w.stalls
  {
    WorkIsNatural(w.heap, w.output, input, l.offset);
  }

  lemma WorkIsNatural(heap: seq<IoData>, output: map<int, Byte>, input: seq<Byte>, end: int)
    requires DataOk(heap, output, input, end)
    ensures Sum(WorkLeft, heap) >= 0
    ensures Sum(Writes, heap) <= Sum(WorkLeft, heap)
  {
    forall i | 0 <= i < |heap| ensures 0 <= Weight(Writes, heap[i]) <= Weight(WorkLeft, heap[i]) {
      assert ChunkOk(heap[i], input);
    }
    SumZero(WorkLeft, heap);
    SumBelow(Writes, WorkLeft, heap);
  }

  lemma {:induction false} SumBelow(m: Measure, k: Measure, heap: seq<IoData>)
    requires forall i :: 0 <= i < |heap| ==> Weight(m, heap[i]) <= Weight(k, heap[i])
    ensures Sum(m, heap) <= Sum(k, heap)
    decreases |heap|
  {
    if |heap| > 0 {
      var n := |heap| - 1;
      forall i | 0 <= i < n ensures Weight(m, heap[..n][i]) <= Weight(k, heap[..n][i]) {
        assert heap[..n][i] == heap[i];
      }
      SumBelow(m, k, heap[..n]);
    }
  }

  lemma RightOutput(w: World, l: Locals, input: seq<Byte>)
    requires Filling(w, l, input)
    ensures OutputRight(w.output, input, l.offset)
  {
  }

  /** Taking a completion, even a failed one, uses up one unit of fuel and writes nothing wrong. */
  lemma TakenOutput(w: World, p: nat, res: int, l: Locals, input: seq<Byte>)
    requires Inv(w, l, input) && p in w.inflight && p < |w.heap| && res <= w.heap[p].iovLen && w.fuel > 0
    ensures var w1 := Taken(w, p, res, input);
            && w1.fuel == w.fuel - 1 && w1.trouble == w.trouble && w1.stalls == w.stalls + (if res <= 0 then 1 else 0)
            && w1.may == w.may && w1.mayStall == w.mayStall
            && (res < 0 ==> OutputRight(w1.output, input, l.offset))
  {
  }

  // ---------- the final loop ----------

  /** Some queued read never got to the kernel. */
  ghost predicate Stranded(w: World) {
    exists p: nat :: p in multiset(w.sq) && p < |w.heap| && w.heap[p].read
  }

  /** Some chunk's last write was short and nobody noticed. */
  ghost predicate Lost(heap: seq<IoData>) {
    exists i :: 0 <= i < |heap| && !heap[i].live && Written(heap[i]) < heap[i].firstLen
  }

  /** The state of the final loop: what is outstanding, and what has been lost so far. */
  ghost predicate Draining(w: World, l: Locals, input: seq<Byte>, submitFailed: bool, shortDrain: bool) {
    && DataOk(w.heap, w.output, input, l.offset)
    && Ops(w, |w.sq| + |w.inflight|)
    && (if submitFailed then w.trouble.submitShort && Stranded(w)
        else
          && l.offset == |input| && Sum(Reads, w.heap) == 0 && Sum(Writes, w.heap) == l.nrWrites
          && l.nrWrites == |w.sq| + |w.inflight|
          && (!w.trouble.submitShort ==> w.sq == [])
          && (if shortDrain then Lost(w.heap) else DeadDone(w.heap)))
  }

  /** When the final loop ends, the copy is complete exactly if nothing was stranded or lost. */
  lemma DrainedMeans(w: World, l: Locals, input: seq<Byte>, submitFailed: bool, shortDrain: bool)
    requires Draining(w, l, input, submitFailed, shortDrain) && l.nrWrites == 0
    ensures Complete(w.output, input) <==> !submitFailed && !shortDrain
  {
    if submitFailed {
      var p: nat :| p in multiset(w.sq) && p < |w.heap| && w.heap[p].read;
      assert ChunkOk(w.heap[p], input);
      UnwrittenMeansIncomplete(w.heap, w.output, input, l.offset, p);
    } else if shortDrain {
      var i :| 0 <= i < |w.heap| && !w.heap[i].live && Written(w.heap[i]) < w.heap[i].firstLen;
      UnwrittenMeansIncomplete(w.heap, w.output, input, l.offset, i);
    } else {
      SumZero(Reads, w.heap);
      SumZero(Writes, w.heap);
      forall i | 0 <= i < |w.heap| ensures Written(w.heap[i]) == w.heap[i].firstLen {
        assert Weight(Reads, w.heap[i]) == 0 && Weight(Writes, w.heap[i]) == 0;
      }
      CompleteIffAllWritten(w.heap, w.output, input);
    }
  }

  lemma DrainKeepsWorld(w: World, p: nat, res: nat, input: seq<Byte>, end: int, count: int)
    requires DataOk(w.heap, w.output, input, end) && Ops(w, count) && count == |w.sq| + |w.inflight|
    requires p in w.inflight && p < |w.heap| && res <= w.heap[p].iovLen && w.fuel > 0
    ensures w.heap[p].live
    ensures var w' := AfterDrain(Popped(w, p, res), p, res, input);
            && DataOk(w'.heap, w'.output, input, end) && Ops(w', count - 1)
            && w'.sq == w.sq && |w'.sq| + |w'.inflight| == count - 1 && w'.trouble == w.trouble
            && w'.heap == w.heap[p := Freed(Transferred(w.heap[p], input, res), res)]
  {
    hide DataOk, Ops;
    TakeOps(w, p, count);
    CompletionKeepsData(w, p, res, input, end);
    var w' := AfterDrain(Popped(w, p, res), p, res, input);
    FreeOps(w, w', p, w'.heap[p], count);
  }

  /** A completion in the final loop: the record is freed; a short one is lost. */
  lemma DrainStep(w: World, l: Locals, p: nat, res: nat, input: seq<Byte>, submitFailed: bool, shortDrain: bool)
    requires Draining(w, l, input, submitFailed, shortDrain)
    requires p in w.inflight && p < |w.heap| && res <= w.heap[p].iovLen && w.fuel > 0
    ensures Draining(AfterDrain(Popped(w, p, res), p, res, input),
                     l.(nrWrites := l.nrWrites - 1), input, submitFailed, shortDrain || res < w.heap[p].iovLen)
  {
    hide DataOk, Ops, Sum, Lost, DeadDone, Stranded, AfterDrain;
    DrainKeepsWorld(w, p, res, input, l.offset, |w.sq| + |w.inflight|);
    if submitFailed {
      var w' := AfterDrain(Popped(w, p, res), p, res, input);
      StillStranded(w, w', p, |w.sq| + |w.inflight|);
    } else {
      DrainCounts(w.heap, l, p, res, input, w.output, shortDrain);
    }
  }

  lemma StillStranded(w: World, w': World, p: nat, count: int)
    requires Ops(w, count) && Stranded(w) && p in w.inflight && p < |w.heap|
    requires w'.sq == w.sq && |w'.heap| == |w.heap| && w'.heap == w.heap[p := w'.heap[p]]
    ensures Stranded(w')
  {
    var q: nat :| q in multiset(w.sq) && q < |w.heap| && w.heap[q].read;
    assert q in multiset(w.sq) + w.inflight;
    assert q != p;
    assert q in multiset(w'.sq) && w'.heap[q].read;
  }

  lemma DrainCounts(
      heap: seq<IoData>, l: Locals, p: nat, res: nat, input: seq<Byte>, output: map<int, Byte>, shortDrain: bool)
    requires DataOk(heap, output, input, l.offset) && p < |heap| && heap[p].live && res <= heap[p].iovLen
    requires Sum(Reads, heap) == 0 && Sum(Writes, heap) == l.nrWrites
    requires if shortDrain then Lost(heap) else DeadDone(heap)
    ensures var heap' := heap[p := Freed(Transferred(heap[p], input, res), res)];
            && Sum(Reads, heap') == 0 && Sum(Writes, heap') == l.nrWrites - 1
            && (if shortDrain || res < heap[p].iovLen then Lost(heap') else DeadDone(heap'))
  {
    var d' := Freed(Transferred(heap[p], input, res), res);
    SumZero(Reads, heap);
    assert Weight(Reads, heap[p]) == 0;
    SumUpdate(Reads, heap, p, d');
    SumUpdate(Writes, heap, p, d');
    LossAfter(heap, p, d', input, res, shortDrain, output, l.offset);
  }

  lemma LossAfter(
      heap: seq<IoData>, p: nat, d': IoData, input: seq<Byte>, res: nat, shortDrain: bool,
      output: map<int, Byte>, end: int)
    requires DataOk(heap, output, input, end) && p < |heap| && heap[p].live && !heap[p].read && res <= heap[p].iovLen
    requires d' == Freed(heap[p], res)
    requires if shortDrain then Lost(heap) else DeadDone(heap)
    ensures if shortDrain || res < heap[p].iovLen then Lost(heap[p := d']) else DeadDone(heap[p := d'])
  {
    var heap' := heap[p := d'];
    assert ChunkOk(heap[p], input);
    if shortDrain {
      var i :| 0 <= i < |heap| && !heap[i].live && Written(heap[i]) < heap[i].firstLen;
      assert !heap'[i].live && Written(heap'[i]) < heap'[i].firstLen;
    } else if res < heap[p].iovLen {
      assert !heap'[p].live && Written(heap'[p]) < heap'[p].firstLen;
    }
  }

  /** Freeing the record of a taken completion is what the final loop does with it. */
  lemma DrainIs(w0: World, p: nat, res: nat, input: seq<Byte>)
    requires p < |w0.heap| && w0.fuel > 0
    ensures var w := Taken(w0, p, res, input);
            var after := AfterDrain(Popped(w0, p, res), p, res, input);
            && |w.heap| == |w0.heap| && w.heap[p].iovLen == w0.heap[p].iovLen && w.trouble == w0.trouble
            && w.(heap := w.heap[p := Freed(w.heap[p], res)]) == after
            && after.heap == AfterDrain(w0, p, res, input).heap && after.output == AfterDrain(w0, p, res, input).output
            && after.trouble == w0.trouble && after.may == w0.may && after.mayStall == w0.mayStall
            && after.fuel == w0.fuel - 1 && after.stalls == w0.stalls + if res == 0 then 1 else 0
  {
  }

  /** The body of the final loop: the record is freed without a look at how much was written. */
  method DrainOne(w: World, l: Locals, p: nat, res: nat, input: seq<Byte>, ghost w0: World, ghost submitFailed: bool)
    returns (w': World, l': Locals)
    requires Draining(w0, l, input, submitFailed, w0.trouble.shortDrain)
    requires p in w0.inflight && p < |w0.heap| && res <= w0.heap[p].iovLen && w0.fuel > 0
    requires w == Taken(w0, p, res, input)
    ensures w'.heap == AfterDrain(w0, p, res, input).heap && w'.output == AfterDrain(w0, p, res, input).output
    ensures w'.trouble == w0.trouble.(shortDrain := w0.trouble.shortDrain || res < w0.heap[p].iovLen)
    ensures l' == l.(nrWrites := l.nrWrites - 1) && w'.fuel == w0.fuel - 1
    ensures Draining(w', l', input, submitFailed, w'.trouble.shortDrain)
    ensures w'.may == w0.may && w'.mayStall == w0.mayStall && w'.stalls == w0.stalls + if res == 0 then 1 else 0
  {
    hide DataOk, Draining, Taken, AfterDrain;
    DrainStep(w0, l, p, res, input, submitFailed, w0.trouble.shortDrain);
    DrainIs(w0, p, res, input);
    w' := w.(heap := w.heap[p := Freed(w.heap[p], res)],
             trouble := w.trouble.(shortDrain := w.trouble.shortDrain || res < w.heap[p].iovLen));
    l' := l.(nrWrites := l.nrWrites - 1);
    ghost var w1 := w'.(trouble := w0.trouble);
    assert w1 == AfterDrain(Popped(w0, p, res), p, res, input);
    DrainingTransfers(w1, w', l', input, submitFailed, w'.trouble.shortDrain);
  }

  lemma DrainingTransfers(w: World, w': World, l: Locals, input: seq<Byte>, submitFailed: bool, shortDrain: bool)
    requires Draining(w, l, input, submitFailed, shortDrain)
    requires w' == w.(trouble := w'.trouble) && w'.trouble.submitShort == w.trouble.submitShort
    ensures Draining(w', l, input, submitFailed, shortDrain)
  {
    hide DataOk, Sum, Lost, DeadDone;
  }

  /** One pass of the final loop: wait for a write, whatever it has written. */
  method DrainNext(w: World, l: Locals, input: seq<Byte>, ghost submitFailed: bool, ghost budget: int)
    returns (w': World, l': Locals, status: Status)
    requires Draining(w, l, input, submitFailed, w.trouble.shortDrain) && l.nrWrites > 0
    requires l.nrWrites - w.fuel <= budget + w.stalls
    ensures status == Ok ==>
              && Draining(w', l', input, submitFailed, w'.trouble.shortDrain)
              && l' == l.(nrWrites := l.nrWrites - 1) && l'.nrWrites - w'.fuel <= budget + w'.stalls
    ensures status == Failed ==> w'.trouble.opFailed || w'.trouble.interrupted
    ensures status == Blocked ==> w'.trouble.submitShort
    ensures status == Exhausted ==> 0 <= budget + w'.stalls
    ensures w'.trouble.submitShort == w.trouble.submitShort && Fair(w, w')
    ensures status != AssertFailed && (status != Ok ==> OutputRight(w'.output, input, l.offset))
  {
    hide DataOk, Ops, Draining, OutputRight, Taken, AfterDrain;
    l', status := l, Ok;
    DrainReady(w, l, input, submitFailed, w.trouble.shortDrain);
    var waitFails := *;
    if waitFails && w.may.interrupted {
      return w.(trouble := w.trouble.(interrupted := true)), l, Failed;
    }
    if |w.inflight| == 0 {
      return w, l, Blocked;
    }
    if w.fuel == 0 {
      return w, l, Exhausted;
    }
    var p, res;
    w', p, res := Reap(w, input, Leave(w.may.opFailed, w.may.opFailed, w.may.shortDrain, w.may.shortDrain));
    FailedTake(w, p, res, input);
    if res < 0 {
      return w'.(trouble := w'.trouble.(opFailed := true)), l, Failed;
    }
    w', l' := DrainOne(w', l, p, res, input, w, submitFailed);
  }

  /** The final loop: wait out the writes; a short one is not noticed, any error ends the copy. */
  method DrainWrites(w: World, l: Locals, input: seq<Byte>, ghost submitFailed: bool, ghost budget: int)
    returns (w': World, status: Status)
    requires Draining(w, l, input, submitFailed, w.trouble.shortDrain) && l.nrWrites >= 0
    requires l.nrWrites - w.fuel <= budget + w.stalls
    ensures status == Ok ==> (Complete(w'.output, input) <==> !submitFailed && !w'.trouble.shortDrain)
    ensures status == Failed ==> w'.trouble.opFailed || w'.trouble.interrupted
    ensures status == Blocked ==> w'.trouble.submitShort
    ensures w'.trouble.submitShort == w.trouble.submitShort && Fair(w, w')
    ensures status == Exhausted ==> 0 <= budget + w'.stalls
    ensures status != AssertFailed && OutputRight(w'.output, input, l.offset)
  {
    hide DataOk, Ops, Draining, OutputRight, Transfer, Complete, Fair;
    StaysFair(w);
    w', status := w, Ok;
    var l' := l;
    while l'.nrWrites != 0
      invariant Draining(w', l', input, submitFailed, w'.trouble.shortDrain)
      invariant l'.nrWrites >= 0 && l'.offset == l.offset && status == Ok
      invariant l'.nrWrites - w'.fuel <= budget + w'.stalls
      invariant w'.trouble.submitShort == w.trouble.submitShort && Fair(w, w')
      decreases l'.nrWrites
    {
      ghost var w0 := w';
      w', l', status := DrainNext(w', l', input, submitFailed, budget);
      FairThen(w, w0, w');
      if status != Ok {
        return;
      }
    }
    DrainReady(w', l', input, submitFailed, w'.trouble.shortDrain);
    DrainedMeans(w', l', input, submitFailed, w'.trouble.shortDrain);
  }

  lemma DrainReady(w: World, l: Locals, input: seq<Byte>, submitFailed: bool, shortDrain: bool)
    requires Draining(w, l, input, submitFailed, shortDrain)
    ensures forall q :: q in w.inflight ==> q < |w.heap| && w.heap[q].iovLen > 0
    ensures |w.inflight| == 0 && l.nrWrites > 0 ==> w.trouble.submitShort
    ensures OutputRight(w.output, input, l.offset)
  {
    forall q | q in w.inflight ensures q < |w.heap| && w.heap[q].iovLen > 0 {
      assert q in multiset(w.sq) + w.inflight;
      assert ChunkOk(w.heap[q], input);
    }
  }

  const NOTHING := Trouble(false, false, false, false, false)
  const ANYTHING := Trouble(true, true, true, true, true)

  function Start(fuel: nat, may: Trouble, mayStall: bool): World {
    World([], [], multiset{}, map[], fuel, 0, NOTHING, may, mayStall)
  }

  function StartLocals(input: seq<Byte>): Locals {
    Locals(|input|, |input|, 0, 0, 0)
  }

  lemma EmptyStart(input: seq<Byte>, fuel: nat, may: Trouble, mayStall: bool)
    ensures var w, l := Start(fuel, may, mayStall), StartLocals(input);
            Inv(w, l, input) && Within(w, l, 2 * |input| - fuel) && w.fuel == fuel && w.trouble == NOTHING
            && Permitted(w) && w.may == may && w.mayStall == mayStall
  {
  }

  /** Nothing was queued although input is left: only a failed allocation does that. */
  lemma NothingOutstanding(w: World, l: Locals, input: seq<Byte>)
    requires Filling(w, l, input) && l.nrReads + l.nrWrites == 0 && l.writeLeft > 0
    requires l.insize == 0 || l.nrReads + l.nrWrites >= QD || w.trouble.allocFailed
    ensures w.trouble.allocFailed
  {
    SumZero(Reads, w.heap);
    SumZero(Writes, w.heap);
    forall i | 0 <= i < |w.heap| ensures !w.heap[i].live {
      assert Weight(Reads, w.heap[i]) >= 0 && Weight(Writes, w.heap[i]) >= 0;
    }
    NoReadsNoBytes(w.heap);
  }

  lemma {:induction false} NoReadsNoBytes(heap: seq<IoData>)
    requires forall i :: 0 <= i < |heap| ==> !heap[i].live
    ensures Sum(ReadBytes, heap) == 0
    decreases |heap|
  {
    if |heap| > 0 {
      NoReadsNoBytes(heap[..|heap| - 1]);
    }
  }

  /** A refused submit leaves the reads just queued behind. */
  lemma RefusedIsStranded(w0: World, w: World, l: Locals, input: seq<Byte>, budget: int)
    requires Filling(w0, l, input) && LastIsNewRead(w0.heap, w0.sq) && Within(w0, l, budget)
    requires w == Refused(w0)
    ensures Draining(w, l, input, true, false) && l.nrWrites >= 0
    ensures Filling(w, l, input) && Within(w, l, budget)
  {
    var p := w.sq[|w.sq| - 1];
    assert p in multiset(w.sq);
  }

  /** Once nothing is left to read or to turn around, only writes are outstanding. */
  lemma FinishedIsDraining(w: World, l: Locals, input: seq<Byte>)
    requires Inv(w, l, input) && l.insize == 0 && l.writeLeft == 0
    ensures Draining(w, l, input, false, false) && l.nrWrites >= 0
  {
    SumZero(ReadBytes, w.heap);
    forall i | 0 <= i < |w.heap| ensures Weight(Reads, w.heap[i]) == 0 {
      assert ChunkOk(w.heap[i], input);
      assert Weight(ReadBytes, w.heap[i]) == 0;
    }
    AllZero(Reads, w.heap);
  }

  lemma {:induction false} AllZero(m: Measure, heap: seq<IoData>)
    requires forall i :: 0 <= i < |heap| ==> Weight(m, heap[i]) == 0
    ensures Sum(m, heap) == 0
    decreases |heap|
  {
    if |heap| > 0 {
      var init := heap[..|heap| - 1];
      forall i | 0 <= i < |init| ensures Weight(m, init[i]) == 0 {
        assert init[i] == heap[i];
      }
      AllZero(m, init);
    }
  }

  /** The head of the main loop: queue as many reads as possible and submit them. */
  method QueueAndSubmit(w: World, l: Locals, input: seq<Byte>, garbage: int -> Byte, ghost budget: int)
    returns (w': World, l': Locals, refused: bool)
    requires Inv(w, l, input) && Within(w, l, budget) && (l.insize != 0 || l.writeLeft != 0)
    ensures w'.fuel == w.fuel && w'.trouble.shortDrain == w.trouble.shortDrain && Fair(w, w')
    ensures Filling(w', l', input) && Within(w', l', budget) && l'.writeLeft > 0
    ensures if refused then Draining(w', l', input, true, false) && l'.nrWrites >= 0 else Inv(w', l', input)
    ensures !refused && l'.nrReads + l'.nrWrites == 0 ==> w'.trouble.allocFailed
  {
    hide DataOk, Counts, DeadDone, Ops, Sum, Stranded, LastIsNewRead, Within, Fair;
    CountsBounded(w.heap, l);
    var hadReads := l.nrReads;
    w', l' := FillQueue(w, l, input, garbage, budget);
    refused := false;
    if hadReads != l'.nrReads {
      ghost var w0 := w';
      var n;
      w', n := Submit(w');
      FairThen(w, w0, w');
      if n < 0 {
        RefusedIsStranded(w0, w', l', input, budget);
        return w', l', true;
      }
      SubmitEstablishesInv(w0, w', n, l', input, budget);
    }
    if l'.nrReads + l'.nrWrites == 0 {
      NothingOutstanding(w', l', input);
    }
  }

  /** The body of the main loop, up to the completions of one wait. */
  method MainRound(w: World, l: Locals, input: seq<Byte>, garbage: int -> Byte, ghost budget: int)
    returns (w': World, l': Locals, refused: bool, status: Status)
    requires Inv(w, l, input) && Within(w, l, budget) && (l.insize != 0 || l.writeLeft != 0)
    ensures Fair(w, w') && w'.trouble.shortDrain == w.trouble.shortDrain
    ensures refused ==> status == Ok && w'.trouble.submitShort && l'.nrWrites >= 0
    ensures refused ==> Draining(w', l', input, true, false)
    ensures status == Ok ==> Filling(w', l', input) && Within(w', l', budget)
    ensures status == Ok && !refused ==> Inv(w', l', input) && w'.fuel < w.fuel
    ensures status == Failed ==> w'.trouble.opFailed || w'.trouble.interrupted
    ensures status == Blocked ==> w'.trouble.submitShort || w'.trouble.allocFailed
    ensures status == Exhausted ==> 0 <= budget + w'.stalls
    ensures status != AssertFailed && OutputRight(w'.output, input, l'.offset)
  {
    hide Within, Fair, OutputRight, DataOk, Counts, Ops, DeadDone, Stranded;
    w', l', refused := QueueAndSubmit(w, l, input, garbage, budget);
    status := Ok;
    if refused {
      RightOutput(w', l', input);
      return;
    }
    ghost var w1 := w';
    w', l', status := ReapLoop(w', l', input, budget);
    FairThen(w, w1, w');
  }

  /** What is outstanding when the final loop begins fits the work that is left. */
  lemma DrainWithin(w: World, l: Locals, input: seq<Byte>, budget: int)
    requires Filling(w, l, input) && Within(w, l, budget)
    ensures l.nrWrites - w.fuel <= budget + w.stalls
  {
    WorkIsNatural(w.heap, w.output, input, l.offset);
  }

  /**
   * copy_file. For every input, every order and every size of the completions, and whatever goes
   * wrong among what `may`: the assertion on the SQE never fires; no wrong byte is ever written; the
   * copy hangs only if an allocation failed or a submit fell short; it returns 1 only after an
   * operation or a wait failed; when it returns 0 the output file equals the input exactly if no
   * submit of reads was refused and no write of the final loop was short; and it has come to one of
   * these ends once there were more completions than twice the input's bytes and the completions
   * that moved nothing. So a copy in which nothing went wrong, in particular one in which nothing
   * may go wrong, ends normally and complete.
   */
  method CopyFile(input: seq<Byte>, fuel: nat, garbage: int -> Byte, may: Trouble, mayStall: bool)
    returns (ret: Ret, w: World, submitFailed: bool)
    ensures ret != Abort
    ensures ret == Done ==> (Complete(w.output, input) <==> !submitFailed && !w.trouble.shortDrain)
    ensures submitFailed ==> w.trouble.submitShort
    ensures forall o :: o in w.output ==> 0 <= o < |input| && w.output[o] == input[o]
    ensures ret == Hang ==> w.trouble.allocFailed || w.trouble.submitShort
    ensures ret == Error ==> w.trouble.opFailed || w.trouble.interrupted
    ensures ret == Unfinished ==> fuel <= 2 * |input| + w.stalls
    ensures w.trouble == NOTHING && fuel > 2 * |input| + w.stalls ==> ret == Done && Complete(w.output, input)
    ensures Permitted(w) && w.may == may && w.mayStall == mayStall
    ensures may == NOTHING && !mayStall && fuel > 2 * |input| ==> ret == Done && Complete(w.output, input)
  {
    hide DataOk, Counts, Ops, DeadDone, Draining, Complete, Start, Within, Permitted, Fair;
    w := Start(fuel, may, mayStall);
    var l := StartLocals(input);
    submitFailed := false;
    EmptyStart(input, fuel, may, mayStall);
    ghost var budget := 2 * |input| - fuel;
    var status;
    while l.insize != 0 || l.writeLeft != 0
      invariant Inv(w, l, input) && !submitFailed && !w.trouble.shortDrain && Within(w, l, budget)
      invariant Permitted(w) && w.may == may && w.mayStall == mayStall
      decreases w.fuel
    {
      ghost var w0 := w;
      w, l, submitFailed, status := MainRound(w, l, input, garbage, budget);
      KeepsPermitted(w0, w);
      if submitFailed {
        break;
      }
      if status != Ok {
        return Ending(status), w, submitFailed;
      }
    }
    if !submitFailed {
      FinishedIsDraining(w, l, input);
    }
    DrainWithin(w, l, input, budget);
    ghost var w1 := w;
    w, status := DrainWrites(w, l, input, submitFailed, budget);
    KeepsPermitted(w1, w);
    ret := Ending(status);
  }

  /** What may go wrong limits what went wrong; when nothing may, nothing did. */
  lemma KeepsPermitted(w: World, w': World)
    requires Permitted(w) && Fair(w, w')
    ensures Permitted(w') && w'.may == w.may && w'.mayStall == w.mayStall
    ensures w'.may == NOTHING && !w'.mayStall ==> w'.trouble == NOTHING && w'.stalls == 0
  {
  }

  function Ending(status: Status): Ret {
    match status
    case Ok => Done
    case Failed => Error
    case Blocked => Hang
    case AssertFailed => Abort
    case Exhausted => Unfinished
  }

  // ---------- the two ways to lose data ----------

  /** The locals after queue_read of `size` bytes. */
  function ReadQueued(l: Locals, size: nat): Locals {
    l.(insize := l.insize - size, offset := l.offset + size, nrReads := l.nrReads + 1)
  }

  /** Record p freed in the final loop after `res` bytes. */
  function Drained(w: World, p: nat, res: nat): World
    requires p < |w.heap|
  {
    w.(heap := w.heap[p := Freed(w.heap[p], res)],
       trouble := w.trouble.(shortDrain := w.trouble.shortDrain || res < w.heap[p].iovLen))
  }

  /** The copy of a one-byte file while its only read is under way... */
  function OneByteReading(garbage: Byte): World {
    World([NewRead(1, 0, [garbage])], [], multiset{0}, map[], 2, 0, NOTHING, ANYTHING, true)
  }

  /** ...and while its only write is. */
  function OneByteWriting(b: Byte): World {
    World([IoData(false, 0, 0, 1, 0, 1, [b], true)], [], multiset{0}, map[], 1, 0, NOTHING, ANYTHING, true)
  }

  /** A file of one chunk: the first pass of the read loop covers it. */
  lemma FirstReadQueued(input: seq<Byte>, garbage: seq<Byte>, fuel: nat, may: Trouble, mayStall: bool)
    requires 0 < |input| && |garbage| == |input|
    ensures Inv(Start(fuel, may, mayStall), StartLocals(input), input)
    ensures var w1, l1 := WithRead(Start(fuel, may, mayStall), |input|, 0, garbage), ReadQueued(StartLocals(input), |input|);
            Filling(w1, l1, input) && Within(w1, l1, 2 * |input| - fuel)
  {
    hide DataOk, Counts, DeadDone, Ops, Sum;
    var w0, l0 := Start(fuel, may, mayStall), StartLocals(input);
    EmptyStart(input, fuel, may, mayStall);
    QueueReadKeepsFilling(w0, l0, WithRead(w0, |input|, 0, garbage), ReadQueued(l0, |input|), input, |input|, 0, garbage);
  }

  lemma OneByteSubmitted(garbage: Byte)
    ensures var w1 := WithRead(Start(2, ANYTHING, true), 1, 0, [garbage]);
            |w1.sq| == 1 && Submitted(w1, 1) == OneByteReading(garbage)
  {
    var w1 := WithRead(Start(2, ANYTHING, true), 1, 0, [garbage]);
    assert w1.sq[..1] == [0];
  }

  /** The first pass of the main loop queues and submits the read. */
  lemma OneByteIsRead(b: Byte, garbage: Byte)
    ensures Inv(OneByteReading(garbage), Locals(0, 1, 1, 0, 1), [b])
  {
    hide DataOk, Counts, DeadDone, Sum, Ops, Start, WithRead, Submitted, OneByteReading, Inv, Filling, Within;
    var w0, l0 := Start(2, ANYTHING, true), StartLocals([b]);
    var w1, l1 := WithRead(w0, 1, 0, [garbage]), ReadQueued(l0, 1);
    OneByteSubmitted(garbage);
    FirstReadQueued([b], [garbage], 2, ANYTHING, true);
    SubmitEstablishesInv(w1, Submitted(w1, 1), 1, l1, [b], 0);
  }

  lemma OneByteArrives(b: Byte, garbage: Byte)
    ensures var after := AfterCompletion(OneByteReading(garbage), 0, 1, [b]);
            after.heap == OneByteWriting(b).heap && after.output == map[]
  {
    var d := OneByteReading(garbage).heap[0];
    assert ReadInto(d, [b], 1).buf == [b];
    assert Completed(ReadInto(d, [b], 1), 1) == OneByteWriting(b).heap[0];
  }

  /** Its completion turns the record around and ends the main loop: nothing is left to read. */
  lemma OneByteIsTurnedAround(b: Byte, garbage: Byte)
    ensures Handled(OneByteReading(garbage), Locals(0, 1, 1, 0, 1), 0, 1, [b], OneByteWriting(b), Locals(0, 0, 0, 1, 1))
  {
    hide AfterCompletion;
    OneByteArrives(b, garbage);
  }

  lemma OneByteOps(b: Byte)
    ensures Ops(OneByteWriting(b), 1)
  {
    assert multiset(OneByteWriting(b).sq) + OneByteWriting(b).inflight == multiset{0};
  }

  lemma OneByteKeepsInv(b: Byte, garbage: Byte)
    ensures Inv(OneByteWriting(b), Locals(0, 0, 0, 1, 1), [b])
  {
    hide DataOk, Counts, DeadDone, AfterCompletion, WithRead, Submitted, Start, ReadQueued, Ops;
    OneByteIsRead(b, garbage);
    OneByteOps(b);
    OneByteArrives(b, garbage);
    CompletionKeepsInv(OneByteReading(garbage), Locals(0, 1, 1, 0, 1), 0, 1, [b]);
  }

  /** A write that moves nothing completes in the final loop. */
  lemma OneByteIsLost(b: Byte)
    ensures var w := Drained(Taken(OneByteWriting(b), 0, 0, [b]), 0, 0);
            && Draining(w, Locals(0, 0, 0, 0, 1), [b], false, true)
            && w.output == map[] && !Complete(w.output, [b])
  {
    hide DataOk, Counts, DeadDone, Sum, Ops, Complete, Lost, Stranded;
    var w, l := OneByteWriting(b), Locals(0, 0, 0, 1, 1);
    OneByteKeepsInv(b, b);
    FinishedIsDraining(w, l, [b]);
    DrainStep(w, l, 0, 0, [b], false, false);
    var w' := Drained(Taken(w, 0, 0, [b]), 0, 0);
    assert w'.output == map[];
    DrainingTransfers(AfterDrain(Popped(w, 0, 0), 0, 0, [b]), w', Locals(0, 0, 0, 0, 1), [b], false, true);
    DrainedMeans(w', Locals(0, 0, 0, 0, 1), [b], false, true);
  }

  /**
   * The condition on the final loop cannot be dropped. From the start, the copy of a one-byte file
   * queues, submits and reads it, turns the record around and so leaves the main loop; the write
   * completes with 0 bytes, and the copy ends normally with an empty output file.
   */
  lemma ShortDrainLosesData(b: Byte, garbage: Byte)
    ensures var w1 := WithRead(Start(2, ANYTHING, true), 1, 0, [garbage]);
            |w1.sq| == 1 && Submitted(w1, 1) == OneByteReading(garbage)
    ensures Handled(OneByteReading(garbage), Locals(0, 1, 1, 0, 1), 0, 1, [b], OneByteWriting(b), Locals(0, 0, 0, 1, 1))
    ensures var w := Drained(Taken(OneByteWriting(b), 0, 0, [b]), 0, 0);
            Draining(w, Locals(0, 0, 0, 0, 1), [b], false, true) && w.output == map[] && !Complete(w.output, [b])
  {
    hide Handled, Draining, Complete, Taken, Drained;
    OneByteSubmitted(garbage);
    OneByteIsTurnedAround(b, garbage);
    OneByteIsLost(b);
  }

  /**
   * The copy of a file of one chunk whose submit is refused: the main loop is left with nothing
   * written, there is no write to wait for, and the copy ends normally with an empty output file.
   */
  lemma RefusedReadsLoseData(input: seq<Byte>, garbage: seq<Byte>, fuel: nat, may: Trouble, mayStall: bool)
    requires 0 < |input| <= BS && |garbage| == |input|
    ensures var w0, l0 := Start(fuel, may, mayStall), StartLocals(input);
            var w1, l1 := WithRead(w0, |input|, 0, garbage), ReadQueued(l0, |input|);
            var w2 := Refused(w1);
            && Inv(w0, l0, input) && Filling(w1, l1, input) && l1.insize == 0
            && Draining(w2, l1, input, true, false) && l1.nrWrites == 0
            && w2.output == map[] && !Complete(w2.output, input)
  {
    hide DataOk, Counts, DeadDone, Ops, Sum, Complete, Stranded, Lost;
    var w1, l1 := WithRead(Start(fuel, may, mayStall), |input|, 0, garbage), ReadQueued(StartLocals(input), |input|);
    FirstReadQueued(input, garbage, fuel, may, mayStall);
    RefusedIsStranded(w1, Refused(w1), l1, input, 2 * |input| - fuel);
    DrainedMeans(Refused(w1), l1, input, true, false);
  }
}
