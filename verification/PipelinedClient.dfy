// send_receive_data of src/simple_iou_client.cpp with its buffer pool: a window
// of sends ahead of the receives, a window of receives ahead of the replies.
module PipelinedClient {
  import opened BufferPool

  datatype Event = SendEvent | RecvEvent

  /** What the client writes at the start of a buffer and reads back through the completion. */
  datatype Header = Header(event: Event, bufferSize: nat, index: nat)

  datatype Outcome = Running | Done | BadAlloc | Failed

  const SEND_SIZE: nat := 52
  const RECV_SIZE: nat := 48 + 8 * 1024 * 4
  const REPLY_BYTES: nat := 8 * 1024 * 4

  function HeaderOf(b: CheckedOutBuf): Header {
    Header(if b.size == SEND_SIZE then SendEvent else RecvEvent, b.size, b.index)
  }

  /** Every outstanding request finds its own header in its buffer. */
  ghost predicate HeadersIntact(memory: map<(nat, nat), Header>, outstanding: set<CheckedOutBuf>) {
    forall b :: b in outstanding ==>
      (b.size, b.slot) in memory && memory[(b.size, b.slot)] == HeaderOf(b) && b.size in {SEND_SIZE, RECV_SIZE}
  }

  lemma HeldGrows(held: set<CheckedOutBuf>, b: CheckedOutBuf)
    requires b !in held
    ensures |HeldOf(held + {b}, b.size)| == |HeldOf(held, b.size)| + 1
    ensures forall other: nat :: other != b.size ==> HeldOf(held + {b}, other) == HeldOf(held, other)
  {
    assert HeldOf(held + {b}, b.size) == HeldOf(held, b.size) + {b};
  }

  lemma HeldShrinks(held: set<CheckedOutBuf>, b: CheckedOutBuf)
    requires b in held
    ensures |HeldOf(held - {b}, b.size)| == |HeldOf(held, b.size)| - 1
    ensures forall other: nat :: other != b.size ==> HeldOf(held - {b}, other) == HeldOf(held, other)
  {
    assert HeldOf(held, b.size) == HeldOf(held - {b}, b.size) + {b};
  }

  /** A buffer nobody holds has no outstanding request whose header it could overwrite. */
  lemma FreshBufferIsFree(w: World, w': World, b: CheckedOutBuf, memory: map<(nat, nat), Header>, h: Header)
    requires Inv(w) && Inv(w') && w'.held == w.held + {b} && b !in w.held
    requires HeadersIntact(memory, w.held) && h == HeaderOf(b) && b.size in {SEND_SIZE, RECV_SIZE}
    ensures HeadersIntact(memory[(b.size, b.slot) := h], w'.held)
  {
    forall c | c in w.held
      ensures (c.size, c.slot) != (b.size, b.slot)
    {
      assert c == Named(c.size, c.slot) && b == Named(b.size, b.slot);
    }
  }

  class Client {
    const ringSize: nat
    const numRequests: nat
    const pool: Pool
    var sendIndex: nat
    var recvIndex: nat
    var iterationsReceived: nat
    var totalReceived: int
    /** Entries taken from the submission ring since the last submit. */
    var staged: nat
    /** Buffers of the requests the kernel has: what the completions' user_data points to. */
    var outstanding: set<CheckedOutBuf>
    var memory: map<(nat, nat), Header>
    /** Requests completed, and completions with an error. */
    ghost var completed: nat
    ghost var failures: nat

    ghost function PoolWorld(): World
      reads this`outstanding, pool
    {
      World(pool.View(), outstanding)
    }

    ghost predicate Windows()
      reads this`sendIndex, this`recvIndex, this`iterationsReceived
    {
      && iterationsReceived <= recvIndex <= sendIndex <= numRequests
      && sendIndex - recvIndex <= ringSize / 4
      && recvIndex - iterationsReceived <= ringSize / 2
    }

    ghost predicate Bookkeeping()
      reads this`outstanding, this`memory, this`sendIndex, this`recvIndex, this`iterationsReceived, this`completed, pool
    {
      && SEND_SIZE in pool.states && RECV_SIZE in pool.states && pool.capacity <= 0x1_0000
      && Inv(PoolWorld()) && HeadersIntact(memory, outstanding)
      && |HeldOf(outstanding, RECV_SIZE)| == recvIndex - iterationsReceived
      && |HeldOf(outstanding, SEND_SIZE)| <= sendIndex
      && |outstanding| + completed == sendIndex + recvIndex
    }

    constructor (ringSize: nat, numRequests: nat, capacity: nat)
      requires capacity <= 0x1_0000
      ensures Windows() && Bookkeeping() && fresh(pool) && pool.capacity == capacity
      ensures this.ringSize == ringSize && this.numRequests == numRequests && staged == completed == failures == 0
    {
      this.ringSize, this.numRequests := ringSize, numRequests;
      pool := new Pool([RECV_SIZE, SEND_SIZE], capacity);
      sendIndex, recvIndex, iterationsReceived, totalReceived, staged := 0, 0, 0, 0, 0;
      outstanding, memory, completed, failures := {}, map[], 0, 0;
      new;
      assert RECV_SIZE in [RECV_SIZE, SEND_SIZE] && SEND_SIZE in [RECV_SIZE, SEND_SIZE];
      NewPoolHolds(pool.View());
      assert HeldOf({}, RECV_SIZE) == {} == HeldOf({}, SEND_SIZE);
    }

    /** check_out, fill in the header, get_sqe, prepare; fails only when check_out throws. */
    method Prepare(size: nat) returns (ok: bool)
      requires Bookkeeping() && size in {SEND_SIZE, RECV_SIZE} && staged < ringSize
      modifies this`staged, this`outstanding, this`memory, pool
      ensures ok <==> |HeldOf(old(outstanding), size)| < pool.capacity
      ensures SEND_SIZE in pool.states && RECV_SIZE in pool.states
      ensures Inv(PoolWorld()) && HeadersIntact(memory, outstanding)
      ensures |HeldOf(outstanding, size)| == |HeldOf(old(outstanding), size)| + if ok then 1 else 0
      ensures forall other: nat :: other != size ==> HeldOf(outstanding, other) == HeldOf(old(outstanding), other)
      ensures staged == old(staged) + (if ok then 1 else 0)
      ensures |outstanding| == |old(outstanding)| + if ok then 1 else 0
    {
      hide Inv, HeldExactly, LiveMatches, Valid, CheckOutOf, HeadersIntact, HeldOf, Named, Live;
      ghost var w := PoolWorld();
      SameSizesOut(w.pool, size);
      ThrowsIffLiveIsCapacity(pool.View(), size);
      LiveIsHeld(w, size);
      OutKeepsHeld(w, size);
      var r := pool.CheckOut(size);
      StepKeeps(w, Out(size), World(pool.View(), if r.Some? then outstanding + {r.value} else outstanding));
      ok := r.Some?;
      if ok {
        var h := Header(if size == SEND_SIZE then SendEvent else RecvEvent, size, r.value.index);
        CheckOutTakes(w.pool, size);
        assert h == HeaderOf(r.value) && r.value !in outstanding;
        FreshBufferIsFree(w, World(pool.View(), outstanding + {r.value}), r.value, memory, h);
        HeldGrows(outstanding, r.value);
        memory := memory[(size, r.value.slot) := h];
        outstanding := outstanding + {r.value};
        staged := staged + 1;
      }
    }

    /** One send; it fails only when all buffers are taken by sends still outstanding. */
    method SubmitSend() returns (ok: bool)
      requires Windows() && Bookkeeping() && staged < ringSize
      requires sendIndex < numRequests && sendIndex - recvIndex < ringSize / 4
      modifies this`sendIndex, this`staged, this`outstanding, this`memory, pool
      ensures Windows() && Bookkeeping()
      ensures sendIndex == old(sendIndex) + (if ok then 1 else 0) && staged == old(staged) + if ok then 1 else 0
      ensures !ok ==> |HeldOf(outstanding, SEND_SIZE)| == pool.capacity < numRequests
    {
      hide Inv, HeadersIntact, HeldOf;
      AtMostCapacity(PoolWorld(), SEND_SIZE);
      ok := Prepare(SEND_SIZE);
      AtMostCapacity(PoolWorld(), SEND_SIZE);
      if ok {
        sendIndex := sendIndex + 1;
      }
    }

    /** The first inner loop: sends, up to a quarter of the ring ahead of the receives. */
    method SubmitSends() returns (ok: bool)
      requires Windows() && Bookkeeping() && staged == 0
      modifies this`sendIndex, this`staged, this`outstanding, this`memory, pool
      ensures Windows() && Bookkeeping() && old(sendIndex) <= sendIndex
      ensures staged == sendIndex - old(sendIndex) <= ringSize / 4
      ensures ok ==> sendIndex == numRequests || sendIndex - recvIndex == ringSize / 4
      ensures !ok ==> |HeldOf(outstanding, SEND_SIZE)| == pool.capacity < numRequests && ringSize >= 4
    {
      hide Bookkeeping, HeldOf;
      ok := true;
      while ok && sendIndex < numRequests && sendIndex - recvIndex < ringSize / 4
        invariant Windows() && Bookkeeping() && old(sendIndex) <= sendIndex
        invariant staged == sendIndex - old(sendIndex)
        invariant !ok ==> |HeldOf(outstanding, SEND_SIZE)| == pool.capacity < numRequests && ringSize >= 4
        decreases ok, numRequests - sendIndex
      {
        ok := SubmitSend();
      }
    }

    /** One receive: the pool has a buffer for it. */
    method SubmitReceive() returns (ok: bool)
      requires Windows() && Bookkeeping() && staged < ringSize && pool.capacity >= ringSize / 2
      requires recvIndex < sendIndex && recvIndex - iterationsReceived < ringSize / 2
      modifies this`recvIndex, this`staged, this`outstanding, this`memory, pool
      ensures Windows() && Bookkeeping() && ok
      ensures recvIndex == old(recvIndex) + 1 && staged == old(staged) + 1
    {
      hide Inv, HeadersIntact, HeldOf;
      ok := Prepare(RECV_SIZE);
      recvIndex := recvIndex + 1;
    }

    /** The second inner loop: receives, up to half the ring ahead of the replies. Never out of buffers. */
    method SubmitReceives() returns (ok: bool)
      requires Windows() && Bookkeeping() && staged <= ringSize / 4
      requires pool.capacity >= ringSize / 2
      modifies this`recvIndex, this`staged, this`outstanding, this`memory, pool
      ensures Windows() && Bookkeeping() && old(recvIndex) <= recvIndex
      ensures staged == old(staged) + recvIndex - old(recvIndex) <= ringSize
      ensures ok
      ensures recvIndex == sendIndex || recvIndex - iterationsReceived == ringSize / 2
    {
      hide Bookkeeping;
      ok := true;
      while ok && recvIndex < sendIndex && recvIndex - iterationsReceived < ringSize / 2
        invariant Windows() && Bookkeeping() && old(recvIndex) <= recvIndex && ok
        invariant staged == old(staged) + recvIndex - old(recvIndex)
        decreases sendIndex - recvIndex
      {
        ok := SubmitReceive();
      }
    }

    /** One completion: any outstanding request, with any result. */
    method Complete(b: CheckedOutBuf, res: int) returns (ok: bool)
      requires Windows() && Bookkeeping() && b in outstanding
      modifies this`iterationsReceived, this`totalReceived, this`outstanding, this`completed, this`failures, pool
      ensures ok <==> res >= 0
      ensures failures == old(failures) + (if ok then 0 else 1) && completed == old(completed) + if ok then 1 else 0
      ensures !ok ==> outstanding == old(outstanding)
      ensures ok ==> Windows() && Bookkeeping() && outstanding == old(outstanding) - {b}
      ensures ok ==> iterationsReceived == old(iterationsReceived) + if b.size == RECV_SIZE then 1 else 0
      ensures ok ==> totalReceived == old(totalReceived) + if b.size == RECV_SIZE then res else 0
    {
      hide Inv, HeldExactly, LiveMatches, Valid, HeadersIntact, HeldOf, CheckInTo, CanCheckIn;
      ghost var w := PoolWorld();
      ShrinksIntact(memory, outstanding, b);
      var data := memory[(b.size, b.slot)];
      if res < 0 {
        failures := failures + 1;
        return false;
      }
      completed := completed + 1;
      InKeepsHeld(w, b);
      HeldShrinks(outstanding, b);
      if b.size == RECV_SIZE {
        ReceivesLeft(outstanding, b);
      }
      if data.event == RecvEvent {
        totalReceived := totalReceived + res;
        iterationsReceived := iterationsReceived + 1;
      }
      SameSizesIn(w.pool, data.bufferSize, data.index);
      pool.CheckIn(data.bufferSize, data.index);
      outstanding := outstanding - {b};
      SmallPoolReaches(w, In(b), PoolWorld());
      StepKeeps(w, In(b), PoolWorld());
      ok := true;
    }

    /**
     * io_uring_for_each_cqe over whatever the kernel has completed: no failed request unless
     * `mayFail`, and at least one of those outstanding unless `mayIdle`.
     */
    method ProcessCompletions(mayFail: bool, mayIdle: bool) returns (ok: bool)
      requires Windows() && Bookkeeping()
      modifies this`iterationsReceived, this`totalReceived, this`outstanding, this`completed, this`failures, pool
      ensures ok ==> Windows() && Bookkeeping() && outstanding <= old(outstanding) && completed >= old(completed)
      ensures failures == old(failures) + (if ok then 0 else 1) && (ok || mayFail)
      ensures ok && old(outstanding) != {} && !mayIdle ==> completed > old(completed)
    {
      hide Bookkeeping;
      ok := true;
      var none := true;
      while ok && outstanding != {}
        invariant ok ==> Windows() && Bookkeeping() && completed >= old(completed)
        invariant outstanding <= old(outstanding) && (ok || mayFail)
        invariant if none then outstanding == old(outstanding) && ok else ok ==> completed > old(completed)
        invariant failures == old(failures) + if ok then 0 else 1
        decreases ok, |outstanding|
      {
        var more: bool := *;
        if !more && (!none || mayIdle) {
          break;
        }
        none := false;
        var b :| b in outstanding;
        var res: int := *;
        ok := Complete(b, if mayFail || res >= 0 then res else 0);
      }
    }

    /** One round of the loop: submit what the windows allow, then take what has completed. */
    method OneRound(mayFail: bool, mayIdle: bool) returns (outcome: Outcome)
      requires Windows() && Bookkeeping() && staged == 0 && pool.capacity >= ringSize / 2
      requires sendIndex < numRequests || recvIndex < numRequests
      modifies this, pool
      ensures outcome in {Running, BadAlloc, Failed}
      ensures outcome != Failed ==> Windows() && Bookkeeping()
      ensures outcome == Running ==> staged == 0 && completed >= old(completed) && failures == old(failures)
      ensures outcome == Running && !mayIdle && ringSize >= 4 ==> completed > old(completed)
      ensures outcome == BadAlloc ==> |HeldOf(outstanding, SEND_SIZE)| == pool.capacity < numRequests
      ensures outcome == Failed ==> failures > old(failures) && mayFail
      ensures ringSize < 4 ==> outcome != BadAlloc && sendIndex == old(sendIndex)
    {
      hide Bookkeeping;
      ghost var s0, r0 := sendIndex, recvIndex;
      AtMostTwice();
      var ok := SubmitSends();
      if !ok {
        return BadAlloc;
      }
      ok := SubmitReceives();
      Submit();
      if ringSize >= 4 {
        SomethingOutstanding(s0, r0);
      }
      ok := ProcessCompletions(mayFail, mayIdle);
      outcome := if ok then Running else Failed;
    }

    /** After a round's submits from indexes s0 and r0 something is outstanding, in a ring of four or more entries. */
    lemma SomethingOutstanding(s0: nat, r0: nat)
      requires Windows() && Bookkeeping() && ringSize >= 4 && completed <= s0 + r0 && s0 <= sendIndex && r0 <= recvIndex
      requires s0 < numRequests || r0 < numRequests
      requires sendIndex == numRequests || sendIndex - r0 == ringSize / 4
      requires recvIndex == sendIndex || recvIndex - iterationsReceived == ringSize / 2
      ensures outstanding != {}
    {
      hide Inv, HeadersIntact;
      assert outstanding == {} ==> HeldOf(outstanding, RECV_SIZE) == {};
    }

    /**
     * The whole loop, for at most `fuel` rounds, when every submit hands all staged entries to the
     * kernel. The windows hold throughout, the submission ring never overflows, a receive always
     * finds a buffer; only a send can find the pool exhausted, by sends still outstanding, and only
     * in a pool of fewer buffers than requests. Every request completes at most twice, so only idle
     * rounds, at most `idle` of them, can make the loop longer than that. In a ring of fewer than
     * four entries the window of sends is empty, and the loop never ends.
     */
    method SendReceiveData(fuel: nat, mayFail: bool, mayIdle: bool) returns (outcome: Outcome, ghost idle: nat)
      requires Windows() && Bookkeeping() && staged == 0
      requires pool.capacity >= ringSize / 2
      modifies this, pool
      ensures outcome != Failed ==> Windows() && Bookkeeping()
      ensures outcome.Done? ==>
                && sendIndex == numRequests
                && (recvIndex == numRequests || totalReceived >= numRequests * REPLY_BYTES)
      ensures outcome.BadAlloc? ==> |HeldOf(outstanding, SEND_SIZE)| == pool.capacity < numRequests
      ensures outcome.Failed? ==> failures > old(failures) && mayFail
      ensures outcome.Running? ==> fuel <= 2 * numRequests + idle
      ensures outcome.Running? && fuel > 0 ==> sendIndex < numRequests || totalReceived < numRequests * REPLY_BYTES
      ensures !mayIdle && ringSize >= 4 ==> idle == 0
      ensures !mayFail && !mayIdle && ringSize >= 4 && pool.capacity >= numRequests && fuel > 2 * numRequests ==>
                outcome.Done?
      ensures ringSize < 4 && old(sendIndex) < numRequests ==> outcome in {Running, Failed}
    {
      hide Bookkeeping;
      var round := 0;
      idle := 0;
      AtMostTwice();
      while sendIndex < numRequests || recvIndex < numRequests
        invariant Windows() && Bookkeeping() && staged == 0 && round <= fuel
        invariant round <= completed + idle && completed <= 2 * numRequests && failures == old(failures)
        invariant ringSize < 4 ==> sendIndex == old(sendIndex)
        invariant round > 0 ==> sendIndex < numRequests || totalReceived < numRequests * REPLY_BYTES
        invariant !mayIdle && ringSize >= 4 ==> idle == 0
        decreases fuel - round
      {
        if round == fuel {
          return Running, idle;
        }
        round := round + 1;
        ghost var before := completed;
        outcome := OneRound(mayFail, mayIdle);
        if outcome != Running {
          return;
        }
        AtMostTwice();
        idle := idle + if completed == before then 1 else 0;
        if totalReceived >= numRequests * REPLY_BYTES && sendIndex >= numRequests {
          break;
        }
      }
      outcome := Done;
    }

    /** A request completes once as a send and once as a receive. */
    lemma AtMostTwice()
      requires Windows() && Bookkeeping()
      ensures completed <= sendIndex + recvIndex <= 2 * numRequests
    {
    }

    /** io_uring_submit, taking everything. */
    method Submit()
      modifies this`staged
      ensures staged == 0
    {
      staged := 0;
    }
  }

  lemma AtMostCapacity(w: World, size: nat)
    requires Inv(w) && size in w.pool.states
    ensures |HeldOf(w.held, size)| <= w.pool.capacity
  {
    LiveIsHeld(w, size);
  }

  lemma ShrinksIntact(memory: map<(nat, nat), Header>, outstanding: set<CheckedOutBuf>, b: CheckedOutBuf)
    requires HeadersIntact(memory, outstanding) && b in outstanding
    ensures HeadersIntact(memory, outstanding - {b})
    ensures (b.size, b.slot) in memory && memory[(b.size, b.slot)] == HeaderOf(b) && b.size in {SEND_SIZE, RECV_SIZE}
  {
  }

  /** A receive that completes was one of the receives counted. */
  lemma ReceivesLeft(outstanding: set<CheckedOutBuf>, b: CheckedOutBuf)
    requires b in outstanding && b.size == RECV_SIZE
    ensures |HeldOf(outstanding, RECV_SIZE)| > 0
  {
    assert b in HeldOf(outstanding, RECV_SIZE);
  }

  lemma LiveIsHeld(w: World, size: nat)
    requires Inv(w) && size in w.pool.states
    ensures Live(w.pool.states[size]) == |HeldOf(w.held, size)| <= w.pool.capacity
  {
    assert LiveMatches(w, size);
  }
}
