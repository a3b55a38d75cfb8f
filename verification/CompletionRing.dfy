// Reading the completion ring while the kernel posts: peeking one entry or a
// batch, iterating, and the loop that enters the kernel to submit and wait.
module CompletionRing {
  import opened Arith
  import opened CompletionQueue
  import opened Options
  import opened RingIndex

  const EAGAIN := 11
  const ETIME := 62

  ghost predicate AllTimeouts(s: seq<Cqe>) {
    forall i :: 0 <= i < |s| ==> s[i].userData == UDATA_TIMEOUT
  }

  /** Entries of liburing's own timeouts that did not fail. */
  ghost predicate Ignored(s: seq<Cqe>) {
    forall i :: 0 <= i < |s| ==> s[i].userData == UDATA_TIMEOUT && s[i].res >= 0
  }

  /** Ignored timeouts, and at the end the failed one whose error is reported. */
  ghost predicate FailedTimeout(s: seq<Cqe>, err: int) {
    |s| > 0 && Ignored(s[..|s| - 1]) && s[|s| - 1].userData == UDATA_TIMEOUT && s[|s| - 1].res == err < 0
  }

  /**
   * The variables of _io_uring_get_cqe: err, cqe, data->submit and looped, with the number of
   * enter calls made and whether the loop was left.
   */
  datatype Wait = Wait(err: int, cqe: Option<nat>, left: nat, looped: bool, enters: nat, done: bool) {
    /** Leave the loop; an error counts only when there is no result yet. */
    function FirstError(e: int): Wait {
      this.(err := if err == 0 then e else err, done := true)
    }
  }

  /** An io_uring_enter call: its arguments, how many completions were ready before it, and its result. */
  datatype EnterCall = EnterCall(
    submit: nat, waitNr: nat, getEvents: bool, wakeup: bool, ready: nat, ret: int)

  /** The caller only looks: nothing to submit, nothing to wait for, nothing there. */
  ghost predicate JustLooking(left: nat, waitNr: nat, available: nat) {
    left == 0 && waitNr == 0 && available == 0
  }

  /** The call waits for completions exactly if too few are ready or none is and that is all it is for. */
  ghost predicate AsksForEvents(call: EnterCall) {
    call.getEvents <==> call.waitNr > call.ready || JustLooking(call.submit, call.waitNr, call.ready)
  }

  /** How many submission entries the kernel took in these calls. */
  function Took(calls: seq<EnterCall>): nat {
    if calls == [] then 0
    else Took(calls[..|calls| - 1]) + if calls[|calls| - 1].ret > 0 then calls[|calls| - 1].ret else 0
  }

  /** In one of the calls the kernel was given something to submit and took nothing. */
  ghost predicate Stuck(calls: seq<EnterCall>) {
    exists k :: 0 <= k < |calls| && calls[k].submit > 0 && calls[k].ret == 0
  }

  /** What call k asks for. */
  ghost predicate Asked(calls: seq<EnterCall>, k: nat, submit: nat, waitNr: nat)
    requires k < |calls|
  {
    calls[k].waitNr == waitNr && calls[k].submit + Took(calls[..k]) == submit && AsksForEvents(calls[k])
  }

  /**
   * The calls of one wait: each asks to submit what the ones before it left over and to wait for
   * waitNr where that is due, and there is another one only after a success that found nothing.
   */
  ghost predicate Waits(calls: seq<EnterCall>, submit: nat, waitNr: nat) {
    && (forall k :: 0 <= k < |calls| ==> Asked(calls, k, submit, waitNr))
    && (forall k :: 0 <= k < |calls| - 1 ==> calls[k].ret >= 0 && calls[k].ready == 0)
  }

  /**
   * The result of a wait as far as its first call decides it: how many entries that call took, if
   * it found nothing ready; later errors do not replace a positive number.
   */
  ghost predicate FirstCallDecides(calls: seq<EnterCall>, w: Wait) {
    && (w.err > 0 <==> calls != [] && calls[0].ready == 0 && calls[0].ret > 0)
    && (w.err > 0 ==> w.err == calls[0].ret)
    && (calls != [] && calls[0].ret < 0 ==> w.err == calls[0].ret && |calls| == 1)
    && (calls != [] && calls[0].ready > 0 ==> |calls| == 1 && w.cqe.Some? && (calls[0].ret >= 0 ==> w.err == 0))
  }

  /** What an enter call was asked for, and what its result does to the loop's variables. */
  ghost predicate CallEffect(w: Wait, w': Wait, call: EnterCall, waitNr: nat) {
    && call.submit == w.left && call.waitNr == waitNr && call.ret <= call.submit && AsksForEvents(call)
    && (call.ready > 0 <==> w'.cqe.Some?)
    && w'.left == w.left - (if call.ret > 0 then call.ret else 0)
    && (w'.done <==> call.ret < 0 || call.ready > 0) && (w'.looped <==> w.looped || !w'.done)
    && w'.err == if w.err != 0 then w.err else if call.ret < 0 || !(w.looped || call.ready > 0) then call.ret else 0
  }

  /** The loop's variables after these calls. */
  ghost predicate Made(calls: seq<EnterCall>, w: Wait, submit: nat, waitNr: nat) {
    && Waits(calls, submit, waitNr) && FirstCallDecides(calls, w)
    && w.left + Took(calls) == submit && w.err <= Took(calls) && |calls| == w.enters
    && (submit == 0 ==> !Stuck(calls)) && (!w.done ==> AllOpen(calls))
  }

  /** All these calls succeeded and found nothing ready. */
  ghost predicate AllOpen(calls: seq<EnterCall>) {
    forall k :: 0 <= k < |calls| ==> calls[k].ret >= 0 && calls[k].ready == 0
  }

  /** The state at the top of the loop. */
  ghost predicate Open(w: Wait) {
    !w.done && w.cqe.None? && w.err >= 0 && (w.looped <==> w.enters > 0) && (!w.looped ==> w.err == 0)
  }

  class Ring {
    const entries: nat
    const wide: bool
    const extArg: bool
    const sqpoll: bool
    const iopoll: bool
    const cqes: array<Cqe>
    var khead: int
    var ktail: int
    /** What the kernel has yet to post: how its side of the run continues. */
    var backlog: seq<Cqe>
    /** The kernel's flags: completions it holds back (overflow, task work), and its thread asleep. */
    var needFlush: bool
    var needWakeup: bool
    /** Every enter call made. */
    ghost var calls: seq<EnterCall>

    ghost function View(): Cq
      reads this`khead, this`ktail, cqes
    {
      Cq(entries, wide, cqes[..], khead, ktail)
    }

    ghost predicate Ok()
      reads this`khead, this`ktail, cqes
      ensures Ok() ==> CompletionQueue.Valid(View())
    {
      CompletionQueue.Valid(View())
    }

    /** Every completion from here on: posted and unseen, then still to come. */
    ghost function Stream(): seq<Cqe>
      reads this`khead, this`ktail, this`backlog, cqes
      requires Ok()
    {
      Unseen(View()) + backlog
    }

    constructor (order: nat, wide: bool, extArg: bool, sqpoll: bool, iopoll: bool, start: int, backlog: seq<Cqe>)
      requires order <= 16 && 0 <= start < U32
      ensures Ok() && fresh(cqes) && entries == Pow2(order)
      ensures Unseen(View()) == [] && Stream() == backlog
    {
      var n := Pow2(order);
      this.entries, this.wide, this.extArg, this.sqpoll, this.iopoll := n, wide, extArg, sqpoll, iopoll;
      cqes := new Cqe[n * Step(wide)](_ => Cqe(0, 0, 0));
      khead, ktail, this.backlog, calls := start, start, backlog, [];
      new;
      EmptyRing(View(), order);
    }

    // ---------- the kernel ----------

    method KernelPost()
      requires Ok() && backlog != [] && |Unseen(View())| < entries
      modifies this`ktail, this`backlog, cqes
      ensures Ok() && View() == Post(old(View()), old(backlog)[0]) && backlog == old(backlog)[1..]
      ensures Unseen(View()) == old(Unseen(View())) + [old(backlog)[0]]
    {
      PostRefines(View(), backlog[0]);
      cqes[(ktail % entries) * Step(wide)] := backlog[0];
      ktail := (ktail + 1) % U32;
      backlog := backlog[1..];
    }

    /** Any number of posts, as long as there is room. */
    method KernelMayPost()
      requires Ok()
      modifies this`ktail, this`backlog, cqes
      ensures Ok() && Stream() == old(Stream())
      ensures old(Unseen(View())) <= Unseen(View())
    {
      hide Ok, Unseen, CompletionQueue.Valid, Post;
      while backlog != [] && (ktail - khead) % U32 < entries
        invariant Ok() && Stream() == old(Stream())
        invariant old(Unseen(View())) <= Unseen(View())
        decreases |backlog|
      {
        if * {
          break;
        }
        KernelPost();
      }
    }

    /** The kernel raises and clears its flags at any time. */
    method KernelFlags()
      modifies this`needFlush, this`needWakeup
    {
      needFlush, needWakeup := *, *;
    }

    /**
     * io_uring_enter: returns an error or how many of `submit` entries it took. With nothing to
     * submit, a successful GETEVENTS call returns only once `waitNr` completions are ready.
     */
    method Enter(submit: nat, waitNr: nat, getEvents: bool, wakeup: bool) returns (ret: int)
      requires Ok()
      modifies this`ktail, this`backlog, this`calls, cqes
      ensures Ok() && Stream() == old(Stream())
      ensures old(Unseen(View())) <= Unseen(View()) && ret <= submit
      ensures calls == old(calls) + [EnterCall(submit, waitNr, getEvents, wakeup, |old(Unseen(View()))|, ret)]
      ensures ret >= 0 && getEvents && submit == 0 ==> |Unseen(View())| >= waitNr
    {
      hide Ok, Stream, Unseen, CompletionQueue.Valid;
      Counters(View());
      ghost var before := (ktail - khead) % U32;
      KernelMayPost();
      Counters(View());
      var ready := (ktail - khead) % U32;
      ret :| -4095 <= ret <= submit && (ret >= 0 && getEvents && submit == 0 ==> ready >= waitNr) by {
        assert -4095 <= -4 <= submit;
      }
      calls := calls + [EnterCall(submit, waitNr, getEvents, wakeup, before, ret)];
    }

    // ---------- the program ----------

    /** io_uring_cq_advance */
    method CqAdvance(nr: nat)
      requires Ok() && nr <= |Unseen(View())|
      modifies this`khead
      ensures Ok() && View() == Advance(old(View()), nr) && Unseen(View()) == old(Unseen(View()))[nr..]
      ensures old(Stream()) == old(Unseen(View()))[..nr] + Stream()
    {
      AdvanceRefines(View(), nr);
      if nr > 0 {
        khead := (khead + nr) % U32;
      }
    }

    /** Give back the oldest entry. */
    method Drop()
      requires Ok() && Unseen(View()) != []
      modifies this`khead
      ensures Ok() && Unseen(View()) == old(Unseen(View()))[1..]
      ensures old(Stream()) == [old(Unseen(View()))[0]] + Stream()
    {
      hide Ok, Stream, Unseen, CompletionQueue.Valid, Advance;
      assert Unseen(View())[..1] == [Unseen(View())[0]];
      CqAdvance(1);
    }

    /**
     * __io_uring_peek_cqe: the oldest unseen entry, or none. Without FEAT_EXT_ARG the entries of
     * liburing's own timeouts are dropped on the way, up to and including one that failed; those
     * are all that is dropped.
     */
    method Peek() returns (err: int, cqe: Option<nat>, available: nat, ghost skipped: seq<Cqe>)
      requires Ok()
      modifies this`khead, this`ktail, this`backlog, cqes
      ensures Ok() && old(Stream()) == skipped + Stream()
      ensures extArg ==> skipped == [] && old(Unseen(View())) <= Unseen(View())
      ensures err == 0 ==> Ignored(skipped)
      ensures err != 0 ==> FailedTimeout(skipped, err) && cqe.None?
      ensures cqe.Some? ==>
                && Unseen(View()) != [] && available == |Unseen(View())|
                && cqe.value == Slot(khead, entries, wide) && cqe.value < cqes.Length
                && cqes[cqe.value] == Unseen(View())[0]
                && (extArg || Unseen(View())[0].userData != UDATA_TIMEOUT)
      ensures err == 0 && cqe.None? ==> available == 0 && Unseen(View()) == []
    {
      hide Ok, Stream, Unseen, Slot, CompletionQueue.Valid, Ignored, FailedTimeout;
      NothingSkipped();
      err, cqe, skipped := 0, None, [];
      while true
        invariant Ok() && old(Stream()) == skipped + Stream()
        invariant Ignored(skipped) && err == 0 && cqe == None
        invariant extArg ==> skipped == [] && old(Unseen(View())) <= Unseen(View())
        decreases |old(Stream())| - |skipped|
      {
        KernelMayPost();
        var tail, head := ktail, khead;
        available := (tail - head) % U32;
        if available == 0 {
          break;
        }
        UnseenHead(View());
        var k := (head % entries) * Step(wide);
        if !extArg && cqes[k].userData == UDATA_TIMEOUT {
          if cqes[k].res < 0 {
            err := cqes[k].res;
          }
          SkipOne(skipped, cqes[k]);
          skipped := skipped + [cqes[k]];
          Drop();
          if err == 0 {
            continue;
          }
        } else {
          cqe := Some(k);
        }
        break;
      }
    }

    /** sq_ring_needs_enter: there is something to submit that the kernel will not fetch by itself. */
    method SqNeedsEnter(submit: nat) returns (r: bool, wakeup: bool)
      ensures r <==> SubmitNeedsEnter(submit)
      ensures wakeup <==> r && sqpoll
    {
      if submit == 0 {
        return false, false;
      }
      if !sqpoll {
        return true, false;
      }
      return needWakeup, needWakeup;
    }

    ghost predicate SubmitNeedsEnter(submit: nat)
      reads this`needWakeup
    {
      submit > 0 && (sqpoll ==> needWakeup)
    }

    /** Completions may exist that only entering the kernel brings into the ring. */
    ghost predicate HeldBack()
      reads this`needFlush
    {
      iopoll || needFlush
    }

    /** A round has a reason to enter the kernel; a mere look is worth one enter call at most. */
    ghost predicate HasReason(left: nat, waitNr: nat, available: nat, looped: bool)
      reads this`needFlush, this`needWakeup
    {
      || waitNr > available || SubmitNeedsEnter(left)
      || (JustLooking(left, waitNr, available) && !looped && HeldBack())
    }

    /**
     * What a wait reports when it makes no further call and has no result: -EAGAIN to a caller that
     * only looks, -ETIME when the one wait that a timeout allows did not bring what was asked for.
     */
    ghost function GivesUp(left: nat, waitNr: nat, available: nat, looped: bool, hasTs: bool): int
      reads this`needFlush, this`needWakeup
    {
      if JustLooking(left, waitNr, available) && (looped || !HeldBack()) then -EAGAIN
      else if HasReason(left, waitNr, available, looped) && looped && hasTs && available == 0 then -ETIME
      else 0
    }

    /**
     * The middle of _io_uring_get_cqe: whether this round enters the kernel, and if not, the error
     * to report unless there already is a result. A wait with a timeout never enters twice.
     */
    method Decide(left: nat, waitNr: nat, found: bool, available: nat, looped: bool, hasTs: bool)
      returns (enter: bool, getEvents: bool, wakeup: bool, giveUp: int)
      requires found <==> available > 0
      modifies this`needFlush, this`needWakeup
      ensures enter <==> HasReason(left, waitNr, available, looped) && !(looped && hasTs)
      ensures enter ==> (getEvents <==> waitNr > available || JustLooking(left, waitNr, available))
      ensures enter ==> (wakeup <==> sqpoll && SubmitNeedsEnter(left))
      ensures giveUp == GivesUp(left, waitNr, available, looped, hasTs) && (giveUp != 0 ==> !enter && !found)
    {
      enter, getEvents, wakeup, giveUp := false, false, false, 0;
      KernelFlags();
      if !found && waitNr == 0 && left == 0 {
        if looped || !(iopoll || needFlush) {
          giveUp := -EAGAIN;
          return;
        }
        enter := true;
      }
      if waitNr > available || enter {
        getEvents, enter := true, true;
      }
      var sqNeeds;
      sqNeeds, wakeup := SqNeedsEnter(left);
      if sqNeeds {
        enter := true;
      }
      if enter && looped && hasTs {
        enter := false;
        if !found {
          giveUp := -ETIME;
        }
      }
    }

    /**
     * Where an error comes from: the last enter call failed; without FEAT_EXT_ARG, the timeout
     * dropped last failed; the caller only looked and the ring is empty, the kernel holding nothing
     * back or having been asked once; or the ring is empty after the one wait that had a timeout.
     */
    ghost predicate Explained(w: Wait, waitNr: nat, hasTs: bool, skipped: seq<Cqe>)
      requires Ok()
      reads this`khead, this`ktail, this`needFlush, this`calls, cqes
    {
      || (w.enters > 0 && calls != [] && w.err == calls[|calls| - 1].ret)
      || (!extArg && skipped != [] && w.err == skipped[|skipped| - 1].res)
      || (w.err == -EAGAIN && w.cqe.None? && Unseen(View()) == [] && w.left == 0 && waitNr == 0
          && (w.enters > 0 || !HeldBack()))
      || (w.err == -ETIME && w.cqe.None? && Unseen(View()) == [] && w.enters > 0 && hasTs)
    }

    /** The enter call of a round: why it was made, what it asked for, and what its result did. */
    ghost predicate Called(w: Wait, w': Wait, call: EnterCall, waitNr: nat)
      reads this`needFlush, this`needWakeup
    {
      && HasReason(w.left, waitNr, call.ready, w.looped)
      && (call.wakeup <==> sqpoll && SubmitNeedsEnter(w.left))
      && CallEffect(w, w', call, waitNr)
    }

    /** The enter call of a round, and what the loop makes of its result. */
    method MakeCall(w: Wait, waitNr: nat, getEvents: bool, wakeup: bool) returns (w': Wait)
      requires Ok() && !w.done && w.err >= 0 && (!w.looped ==> w.err == 0) && (w.cqe.Some? <==> Unseen(View()) != [])
      requires getEvents <==> waitNr > |Unseen(View())| || JustLooking(w.left, waitNr, |Unseen(View())|)
      modifies this`ktail, this`backlog, this`calls, cqes
      ensures Ok() && Stream() == old(Stream()) && old(Unseen(View())) <= Unseen(View())
      ensures |calls| == |old(calls)| + 1 && calls[..|old(calls)|] == old(calls)
      ensures var call := calls[|old(calls)|];
              && call.getEvents == getEvents && call.wakeup == wakeup && call.ready == |old(Unseen(View()))|
              && CallEffect(w, w', call, waitNr)
              && (call.ret >= 0 && getEvents && w.left == 0 ==> |Unseen(View())| >= waitNr)
      ensures w'.enters == w.enters + 1 && w'.cqe == w.cqe
    {
      hide Ok, Stream, Unseen, CompletionQueue.Valid;
      var ret := Enter(w.left, waitNr, getEvents, wakeup);
      w' := w.(enters := w.enters + 1);
      if ret < 0 {
        return w'.FirstError(ret);
      }
      w' := w'.(left := w.left - ret);
      if w.cqe.Some? {
        w' := w'.(done := true);
      } else if !w.looped {
        w' := w'.(looped := true, err := ret);
      }
    }

    /** One round of _io_uring_get_cqe: peek, decide, enter. */
    method Round(w: Wait, waitNr: nat, hasTs: bool) returns (w': Wait, ghost skipped: seq<Cqe>)
      requires Ok() && Open(w)
      modifies this`khead, this`ktail, this`backlog, this`needFlush, this`needWakeup, this`calls, cqes
      ensures Ok() && old(Stream()) == skipped + Stream() && AllTimeouts(skipped) && (extArg ==> skipped == [])
      ensures w'.cqe.Some? ==> IsOldest(w'.cqe.value) && w'.done
      ensures extArg && old(Unseen(View())) != [] ==> w'.cqe.Some?
      ensures w'.done || (Open(w') && Ignored(skipped))
      ensures !Ignored(skipped) ==> w'.err == (if w.err != 0 then w.err else skipped[|skipped| - 1].res)
      ensures w'.err < 0 ==> Explained(w', waitNr, hasTs, skipped)
      ensures if w'.enters == w.enters then calls == old(calls) && w'.done && w'.left == w.left && w'.looped == w.looped
              else
                && w'.enters == w.enters + 1 && |calls| == |old(calls)| + 1 && calls[..|old(calls)|] == old(calls)
                && Called(w, w', calls[|old(calls)|], waitNr)
      ensures w.err > 0 ==> w'.err == w.err
      ensures w'.enters == w.enters && w.err == 0 ==> w'.err <= 0
      ensures w'.enters == w.enters && Ignored(skipped) ==>
                && (HasReason(w.left, waitNr, |Unseen(View())|, w.looped) ==> w.looped && hasTs)
                && (w.err == 0 ==> w'.err == GivesUp(w.left, waitNr, |Unseen(View())|, w.looped, hasTs))
      ensures w'.done && w'.err == 0 && w'.cqe.None? ==> sqpoll && w'.left > 0 && waitNr == 0
      ensures !sqpoll && w.left > 0 && !w.looped && w'.err == 0 ==> w'.enters == w.enters + 1
      ensures w.looped && hasTs ==> w'.done && w'.enters == w.enters
      ensures w.left == 0 && !w'.done ==> |Unseen(View())| >= waitNr
      ensures w.left == 0 && w'.done && w'.err == 0 && waitNr > 0 && !(w.looped && hasTs) ==>
                w'.cqe.Some? && |Unseen(View())| >= waitNr
      ensures extArg && w.looped && w.left == 0 && |old(Unseen(View()))| >= waitNr ==>
                w'.done && w'.enters == w.enters && (waitNr > 0 ==> w'.err == w.err)
      ensures extArg ==> |Unseen(View())| >= |old(Unseen(View()))|
    {
      hide Ok, Stream, Unseen, Slot, CompletionQueue.Valid, Ignored, FailedTimeout, AllTimeouts;
      var e, c, available;
      e, c, available, skipped := Peek();
      TimeoutsOnly(skipped, e);
      w' := w.(cqe := c);
      if e != 0 {
        return w'.FirstError(e), skipped;
      }
      var enter, getEvents, wakeup, giveUp := Decide(w.left, waitNr, c.Some?, available, w.looped, hasTs);
      if !enter {
        return w'.FirstError(giveUp), skipped;
      }
      w' := MakeCall(w', waitNr, getEvents, wakeup);
    }

    ghost predicate IsOldest(k: nat)
      requires Ok()
      reads this`khead, this`ktail, cqes
    {
      && Unseen(View()) != [] && k == Slot(khead, entries, wide)
      && (extArg || Unseen(View())[0].userData != UDATA_TIMEOUT)
    }

    /**
     * Why a wait is over: its last call failed or an entry was there before it; or there is no
     * reason for another one, or the one call that a timeout allows was made, and it gives up.
     */
    ghost predicate Finished(made: seq<EnterCall>, w: Wait, waitNr: nat, hasTs: bool)
      requires Ok()
      reads this`khead, this`ktail, this`needFlush, this`needWakeup, cqes
    {
      || (made != [] && (made[|made| - 1].ret < 0 || made[|made| - 1].ready > 0))
      || (&& (HasReason(w.left, waitNr, |Unseen(View())|, made != []) ==> made != [] && hasTs)
          && (w.err > 0 || w.err == GivesUp(w.left, waitNr, |Unseen(View())|, made != [], hasTs)))
    }

    /** A round of a wait that began with `base` calls made: the calls and the variables stay in step. */
    method NextRound(w: Wait, submit: nat, waitNr: nat, hasTs: bool, ghost base: nat)
      returns (w': Wait, ghost skipped: seq<Cqe>)
      requires Ok() && Open(w) && base <= |calls| && Made(calls[base..], w, submit, waitNr)
      modifies this`khead, this`ktail, this`backlog, this`needFlush, this`needWakeup, this`calls, cqes
      ensures Ok() && old(Stream()) == skipped + Stream() && AllTimeouts(skipped) && (extArg ==> skipped == [])
      ensures w'.cqe.Some? ==> IsOldest(w'.cqe.value) && w'.done
      ensures extArg && old(Unseen(View())) != [] ==> w'.cqe.Some?
      ensures w'.done || (Open(w') && Ignored(skipped))
      ensures !Ignored(skipped) ==> w'.err == (if w.err != 0 then w.err else skipped[|skipped| - 1].res)
      ensures w'.err < 0 ==> Explained(w', waitNr, hasTs, skipped)
      ensures base <= |calls| && calls[..base] == old(calls)[..base] && Made(calls[base..], w', submit, waitNr)
      ensures w.enters <= w'.enters <= w.enters + 1 && (w'.done || w'.enters == w.enters + 1) && w'.left <= w.left
      ensures Stuck(old(calls)[base..]) ==> Stuck(calls[base..])
      ensures w'.enters > w.enters && !w'.done && w.left > 0 && !Stuck(calls[base..]) ==> w'.left < w.left
      ensures w.err > 0 ==> w'.err == w.err
      ensures w'.done && Ignored(skipped) ==> Finished(calls[base..], w', waitNr, hasTs)
      ensures w'.done && w'.err == 0 && w'.cqe.None? ==> sqpoll && w'.left > 0 && waitNr == 0
      ensures !sqpoll && w.left > 0 && !w.looped && w'.err == 0 ==> w'.enters == w.enters + 1
      ensures w.looped && hasTs ==> w'.done && w'.enters == w.enters
      ensures w.left == 0 && !w'.done ==> |Unseen(View())| >= waitNr
      ensures w.left == 0 && w'.done && w'.err == 0 && waitNr > 0 && !(w.looped && hasTs) ==>
                w'.cqe.Some? && |Unseen(View())| >= waitNr
      ensures extArg && w.looped && w.left == 0 && |old(Unseen(View()))| >= waitNr ==>
                w'.done && w'.enters == w.enters && (waitNr > 0 ==> w'.err == w.err)
      ensures extArg ==> |Unseen(View())| >= |old(Unseen(View()))|
    {
      hide Ok, Stream, Unseen, Slot, CompletionQueue.Valid, IsOldest, Ignored, Made, Stuck, Explained, AllTimeouts;
      ghost var calls0 := calls;
      MadeMeans(calls[base..], submit, waitNr, w);
      w', skipped := Round(w, waitNr, hasTs);
      if w'.enters > w.enters {
        assert calls[base..] == calls0[base..] + [calls[|calls0|]];
        OneMoreCall(calls0[base..], calls[|calls0|], submit, waitNr, w, w');
      } else {
        NoMoreCalls(calls0[base..], submit, waitNr, w, w');
      }
      assert calls[..base] == calls[..|calls0|][..base];
    }

    lemma ExplainedJoin(w: Wait, waitNr: nat, hasTs: bool, a: seq<Cqe>, b: seq<Cqe>)
      requires Ok() && Explained(w, waitNr, hasTs, b)
      ensures Explained(w, waitNr, hasTs, a + b)
    {
    }

    /**
     * _io_uring_get_cqe for at most `fuel` rounds; w.left is data->submit afterwards, w.enters
     * counts the enter calls. The result is decided by the first call where that found nothing and
     * took something.
     */
    method GetCqe(submit: nat, waitNr: nat, hasTs: bool, fuel: nat)
      returns (w: Wait, ghost skipped: seq<Cqe>)
      requires Ok()
      modifies this`khead, this`ktail, this`backlog, this`needFlush, this`needWakeup, this`calls, cqes
      ensures Ok() && old(Stream()) == skipped + Stream() && AllTimeouts(skipped) && (extArg ==> skipped == [])
      ensures w.cqe.Some? ==> IsOldest(w.cqe.value)
      ensures extArg && old(Unseen(View())) != [] && fuel > 0 ==> w.done && w.cqe.Some?
      ensures w.err < 0 ==> Explained(w, waitNr, hasTs, skipped)
      ensures !Ignored(skipped) ==> w.done && (w.err == skipped[|skipped| - 1].res || w.err > 0)
      ensures w.err <= submit - w.left && w.left <= submit
      ensures |calls| == |old(calls)| + w.enters && calls[..|old(calls)|] == old(calls)
      ensures var made := calls[|old(calls)|..];
              && Waits(made, submit, waitNr) && FirstCallDecides(made, w) && w.left + Took(made) == submit
              && (hasTs ==> w.enters <= 1 && (fuel >= 2 ==> w.done))
              && (extArg && !Stuck(made) ==> w.enters <= submit + 1 && (fuel >= submit + 2 ==> w.done))
      ensures w.done && Ignored(skipped) ==> Finished(calls[|old(calls)|..], w, waitNr, hasTs)
      ensures w.done && w.err == 0 && w.cqe.None? ==> sqpoll && w.left > 0 && waitNr == 0
      ensures !sqpoll && submit > 0 && w.done && w.err == 0 ==> w.enters >= 1
      ensures submit == 0 && waitNr > 0 && !hasTs && extArg ==>
                && w.enters <= 1 && w.err <= 0 && (fuel >= 2 ==> w.done)
                && (w.done && w.err == 0 ==> w.cqe.Some? && |Unseen(View())| >= waitNr)
    {
      hide Ok, Stream, Unseen, Slot, CompletionQueue.Valid, IsOldest, Ignored, Made, Waits,
           FirstCallDecides, Stuck, Took, Explained, Finished, AllTimeouts;
      w, skipped := Wait(0, None, submit, false, 0, false), [];
      NothingSkipped();
      ghost var base := |calls|;
      NoCalls(submit, waitNr, w);
      assert calls[base..] == [];
      ghost var idle := false;
      var round := 0;
      while round < fuel && !w.done
        invariant Ok() && old(Stream()) == skipped + Stream() && AllTimeouts(skipped) && (extArg ==> skipped == [])
        invariant w.cqe.Some? ==> IsOldest(w.cqe.value) && w.done
        invariant extArg && old(Unseen(View())) != [] ==> if round == 0 then Unseen(View()) != [] else w.cqe.Some?
        invariant w.err < 0 ==> w.done && Explained(w, waitNr, hasTs, skipped)
        invariant if Ignored(skipped) then true else w.done && (w.err == skipped[|skipped| - 1].res || w.err > 0)
        invariant if w.done then round > 0 else Open(w) && w.enters == round
        invariant |calls| == base + w.enters && calls[..base] == old(calls)
        invariant Made(calls[base..], w, submit, waitNr) && w.left <= submit
        invariant w.done && Ignored(skipped) ==> Finished(calls[base..], w, waitNr, hasTs)
        invariant w.done && w.err == 0 && w.cqe.None? ==> sqpoll && w.left > 0 && waitNr == 0
        invariant idle ==> w.left == 0 && w.looped && |Unseen(View())| >= waitNr
        invariant !w.done && w.looped && submit == 0 && extArg ==> idle
        invariant w.done && submit == 0 && waitNr > 0 && !hasTs && extArg && w.err == 0 ==>
                    w.cqe.Some? && |Unseen(View())| >= waitNr
        invariant w.done || w.looped || w.left == submit
        invariant !sqpoll && submit > 0 && w.done && w.err == 0 ==> w.enters >= 1
        invariant hasTs ==> w.enters <= 1
        invariant extArg && !Stuck(calls[base..]) ==> w.enters <= submit - w.left + if idle || w.done then 1 else 0
      {
        ghost var sk;
        ghost var before := w;
        w, sk := NextRound(w, submit, waitNr, hasTs, base);
        SkippedJoin(skipped, sk);
        if w.err < 0 {
          ExplainedJoin(w, waitNr, hasTs, skipped, sk);
        }
        skipped := skipped + sk;
        MadeMeans(calls[base..], submit, waitNr, w);
        idle := extArg && before.left == 0 && !w.done;
        round := round + 1;
      }
      MadeMeans(calls[base..], submit, waitNr, w);
    }

    /**
     * io_uring_peek_batch_cqe: fills `found` with the slots of the first min(count, ready) unseen
     * entries, `ready` of them being there when the tail was last read; the kernel may go on posting
     * until the return. An empty ring is looked at again, once, after a call that brings in what the
     * kernel holds back. The loop runs until `head` meets `last`, also when `last` wrapped below it.
     */
    method PeekBatch(found: array<nat>, count: nat) returns (n: nat, ghost ready: nat)
      requires Ok() && count <= found.Length
      modifies this`ktail, this`backlog, this`needFlush, this`needWakeup, this`calls, cqes, found
      ensures Ok() && Stream() == old(Stream()) && old(Unseen(View())) <= Unseen(View())
      ensures |old(Unseen(View()))| <= ready <= |Unseen(View())|
      ensures n == if count < ready then count else ready
      ensures Points(found[..], n, cqes[..], Unseen(View())) && found[n..] == old(found[..])[n..]
      ensures if |calls| == |old(calls)| then calls == old(calls) && (ready > 0 || !needFlush)
              else
                && needFlush && |calls| == |old(calls)| + 1 && calls[..|old(calls)|] == old(calls)
                && calls[|old(calls)|] == EnterCall(0, 0, true, false, 0, calls[|old(calls)|].ret)
    {
      hide Ok, Stream, Unseen, Slot, CompletionQueue.Valid, Points;
      KernelMayPost();
      var r := (ktail - khead) % U32;
      Counters(View());
      KernelFlags();
      if r == 0 && needFlush {
        var _ := Enter(0, 0, true, false);
        r := (ktail - khead) % U32;
        Counters(View());
      }
      ready, n := r, 0;
      if r != 0 {
        n := if count > r then r else count;
      }
      FillFound(found, n);
    }

    /** One step of that loop: the slot of the i-th unseen entry, while the kernel may post. */
    method FillOne(found: array<nat>, ghost was: seq<nat>, i: nat, count: nat, head: int) returns (next: int)
      requires Ok() && i < count <= found.Length && count <= |Unseen(View())| && head == (khead + i) % U32
      requires SlotsFrom(found[..], was, i, khead, entries, wide)
      modifies this`ktail, this`backlog, cqes, found
      ensures Ok() && Stream() == old(Stream()) && old(Unseen(View())) <= Unseen(View())
      ensures SlotsFrom(found[..], was, i + 1, khead, entries, wide)
      ensures next == (khead + i + 1) % U32 && (next == (khead + count) % U32 <==> i + 1 == count)
    {
      hide Ok, Stream, Unseen, Slot, CompletionQueue.Valid, SlotsFrom, Ready;
      KernelMayPost();
      Visiting(View(), i, count);
      Visiting(View(), i + 1, count);
      SlotsGrow(found[..], was, i, khead, entries, wide);
      found[i] := (head % entries) * Step(wide);
      next := (head + 1) % U32;
    }

    /** The loop of io_uring_peek_batch_cqe. */
    method FillFound(found: array<nat>, count: nat)
      requires Ok() && count <= found.Length && count <= |Unseen(View())|
      modifies this`ktail, this`backlog, cqes, found
      ensures Ok() && Stream() == old(Stream()) && old(Unseen(View())) <= Unseen(View())
      ensures Points(found[..], count, cqes[..], Unseen(View())) && found[count..] == old(found[..])[count..]
    {
      hide Ok, Stream, Unseen, Slot, CompletionQueue.Valid, Points, SlotsFrom, Ready;
      ghost var was := found[..];
      Counters(View());
      NoSlots(was, khead, entries, wide);
      var head, i := khead, 0;
      var last := (head + count) % U32;
      Visiting(View(), 0, count);
      while head != last
        invariant Ok() && Stream() == old(Stream()) && old(Unseen(View())) <= Unseen(View())
        invariant 0 <= i <= count && head == (khead + i) % U32 && (head == last <==> i == count)
        invariant SlotsFrom(found[..], was, i, khead, entries, wide)
        decreases count - i
      {
        head := FillOne(found, was, i, count, head);
        i := i + 1;
      }
      KernelMayPost();
      SlotsArePoints(found[..], was, count, View());
    }

    /** One step of io_uring_for_each_cqe: the entry at `head`, unless that has met the tail as read now. */
    method VisitNext(ghost visited: seq<Cqe>, head: int) returns (e: Option<Cqe>)
      requires Ok() && visited <= Unseen(View()) && head == (khead + |visited|) % U32
      modifies this`ktail, this`backlog, cqes
      ensures Ok() && Stream() == old(Stream())
      ensures e.Some? ==> visited + [e.value] <= Unseen(View()) && (head + 1) % U32 == (khead + |visited| + 1) % U32
      ensures e.None? ==> visited == Unseen(View())
    {
      hide Ok, Stream, Unseen, Slot, CompletionQueue.Valid, Ready, Advance;
      KernelMayPost();
      Visiting(View(), |visited|, |Unseen(View())|);
      PrefixGrows(visited, Unseen(View()));
      if head == ktail {
        e := None;
      } else {
        e := Some(cqes[(head % entries) * Step(wide)]);
      }
    }

    /**
     * io_uring_for_each_cqe with io_uring_cq_advance after it: the tail is read again before every
     * step, so entries posted meanwhile are visited too; in the end everything posted was visited.
     */
    method ForEachAdvance() returns (visited: seq<Cqe>)
      requires Ok()
      modifies this`khead, this`ktail, this`backlog, cqes
      ensures Ok() && old(Stream()) == visited + Stream() && Unseen(View()) == []
    {
      hide Ok, Stream, Unseen, Slot, CompletionQueue.Valid, Ready, Advance;
      visited := [];
      var head := khead;
      Visiting(View(), 0, 0);
      while true
        invariant Ok() && Stream() == old(Stream())
        invariant visited <= Unseen(View()) && head == (khead + |visited|) % U32
        decreases |old(Stream())| - |visited|
      {
        var e := VisitNext(visited, head);
        StreamStarts();
        if e.None? {
          break;
        }
        visited := visited + [e.value];
        head := (head + 1) % U32;
      }
      PrefixWhole(visited, Unseen(View()));
      CqAdvance(|visited|);
    }

    lemma StreamStarts()
      requires Ok()
      ensures |Unseen(View())| <= |Stream()|
    {
    }
  }

  /** The oldest unseen entry sits at the head's slot. */
  lemma UnseenHead(c: Cq)
    requires Valid(c) && Ready(c) > 0
    ensures Slot(c.khead, c.entries, c.wide) < |c.cqes| && Unseen(c)[0] == c.cqes[Slot(c.khead, c.entries, c.wide)]
    ensures c.entries > 0 && Slot(c.khead, c.entries, c.wide) == (c.khead % c.entries) * Step(c.wide)
  {
    UnseenAt(c, 0);
    ModSmall(c.khead, U32);
  }

  /** The first n elements of `found` are the slots of the first n entries of u. */
  ghost predicate Points(found: seq<nat>, n: nat, cqes: seq<Cqe>, u: seq<Cqe>) {
    n <= |found| && n <= |u| && forall i :: 0 <= i < n ==> found[i] < |cqes| && cqes[found[i]] == u[i]
  }

  /** The first n elements of `found` are the slots of consecutive counters, the rest is as it was. */
  ghost predicate SlotsFrom(found: seq<nat>, was: seq<nat>, n: nat, head: int, entries: nat, wide: bool) {
    && n <= |found| == |was| && entries > 0 && found[n..] == was[n..]
    && forall i :: 0 <= i < n ==> found[i] == Slot((head + i) % U32, entries, wide)
  }

  lemma NoSlots(was: seq<nat>, head: int, entries: nat, wide: bool)
    requires entries > 0
    ensures SlotsFrom(was, was, 0, head, entries, wide)
  {
  }

  lemma SlotsGrow(found: seq<nat>, was: seq<nat>, n: nat, head: int, entries: nat, wide: bool)
    requires SlotsFrom(found, was, n, head, entries, wide) && n < |found|
    ensures entries > 0
    ensures SlotsFrom(found[n := ((head + n) % U32 % entries) * Step(wide)], was, n + 1, head, entries, wide)
  {
    assert found[n..][1..] == was[n..][1..];
  }

  /** Slots found earlier still hold their entries, whatever was posted since. */
  lemma SlotsArePoints(found: seq<nat>, was: seq<nat>, n: nat, c: Cq)
    requires Valid(c) && n <= |Unseen(c)| && SlotsFrom(found, was, n, c.khead, c.entries, c.wide)
    ensures Points(found, n, c.cqes, Unseen(c)) && n <= |was| && found[n..] == was[n..]
  {
    hide Slot, Unseen;
    forall i | 0 <= i < n
      ensures found[i] < |c.cqes| && c.cqes[found[i]] == Unseen(c)[i]
    {
      Counters(c);
      UnseenAt(c, i);
    }
  }

  lemma PrefixGrows(v: seq<Cqe>, u: seq<Cqe>)
    requires v <= u
    ensures |v| < |u| ==> v + [u[|v|]] <= u
  {
  }

  lemma PrefixWhole(v: seq<Cqe>, u: seq<Cqe>)
    requires v <= u && |v| == |u|
    ensures u[..|v|] == v && u[|v|..] == []
  {
  }

  lemma NoCalls(submit: nat, waitNr: nat, w: Wait)
    requires w.err == w.enters == 0 && w.left == submit
    ensures Made([], w, submit, waitNr) && !Stuck([])
  {
  }

  lemma TookGrows(made: seq<EnterCall>, call: EnterCall)
    ensures Took(made + [call]) == Took(made) + if call.ret > 0 then call.ret else 0
  {
    assert (made + [call])[..|made|] == made;
  }

  lemma WaitsGrow(made: seq<EnterCall>, call: EnterCall, submit: nat, waitNr: nat)
    requires Waits(made, submit, waitNr) && AllOpen(made)
    requires call.waitNr == waitNr && call.submit + Took(made) == submit && AsksForEvents(call)
    ensures Waits(made + [call], submit, waitNr)
  {
    hide Took, AsksForEvents;
    var all := made + [call];
    forall k | 0 <= k < |all|
      ensures Asked(all, k, submit, waitNr)
    {
      assert all[..k] == if k < |made| then made[..k] else made;
      assert k < |made| ==> Asked(made, k, submit, waitNr);
    }
  }

  lemma StuckGrows(made: seq<EnterCall>, call: EnterCall)
    ensures Stuck(made + [call]) <==> Stuck(made) || (call.submit > 0 && call.ret == 0)
  {
    var all := made + [call];
    if Stuck(made) {
      var k :| 0 <= k < |made| && made[k].submit > 0 && made[k].ret == 0;
      assert all[k] == made[k];
    }
    if call.submit > 0 && call.ret == 0 {
      assert all[|made|] == call;
    }
  }

  /** One more call of the loop, by its effect on the variables. */
  lemma OneMoreCall(made: seq<EnterCall>, call: EnterCall, submit: nat, waitNr: nat, w: Wait, w': Wait)
    requires Made(made, w, submit, waitNr) && Open(w) && CallEffect(w, w', call, waitNr) && w'.enters == w.enters + 1
    ensures Made(made + [call], w', submit, waitNr)
    ensures Stuck(made + [call]) <==> Stuck(made) || (call.submit > 0 && call.ret == 0)
  {
    hide Took, Waits, Stuck, AsksForEvents;
    TookGrows(made, call);
    WaitsGrow(made, call, submit, waitNr);
    StuckGrows(made, call);
    assert (made + [call])[0] == if made == [] then call else made[0];
  }

  lemma NoMoreCalls(made: seq<EnterCall>, submit: nat, waitNr: nat, w: Wait, w': Wait)
    requires Made(made, w, submit, waitNr) && Open(w) && w'.left == w.left && w'.enters == w.enters && w'.done
    requires if w.err > 0 then w'.err == w.err else w'.err <= 0
    ensures Made(made, w', submit, waitNr)
  {
    hide Took, Waits, Stuck;
  }

  lemma MadeMeans(made: seq<EnterCall>, submit: nat, waitNr: nat, w: Wait)
    requires Made(made, w, submit, waitNr)
    ensures Waits(made, submit, waitNr) && FirstCallDecides(made, w) && w.left + Took(made) == submit
    ensures w.err <= submit - w.left && w.left <= submit && |made| == w.enters && (submit == 0 ==> !Stuck(made))
  {
  }

  lemma SkippedJoin(a: seq<Cqe>, b: seq<Cqe>)
    requires Ignored(a) && AllTimeouts(a) && AllTimeouts(b)
    ensures AllTimeouts(a + b) && (Ignored(a + b) <==> Ignored(b))
    ensures b != [] ==> (a + b)[|a + b| - 1] == b[|b| - 1]
    ensures !Ignored(b) ==> b != []
  {
    assert forall i :: 0 <= i < |b| ==> (a + b)[|a| + i] == b[i];
  }

  lemma NothingSkipped()
    ensures Ignored([]) && AllTimeouts([])
  {
  }

  /** One more timeout entry dropped: a good one keeps the walk going, a failed one ends it. */
  lemma SkipOne(s: seq<Cqe>, c: Cqe)
    requires Ignored(s) && c.userData == UDATA_TIMEOUT
    ensures if c.res >= 0 then Ignored(s + [c]) else FailedTimeout(s + [c], c.res)
  {
    assert (s + [c])[..|s|] == s;
  }

  lemma TimeoutsOnly(s: seq<Cqe>, err: int)
    requires if err == 0 then Ignored(s) else FailedTimeout(s, err)
    ensures AllTimeouts(s) && err <= 0 && (err != 0 ==> s != [] && s[|s| - 1].res == err && !Ignored(s))
  {
    if err != 0 {
      assert s == s[..|s| - 1] + [s[|s| - 1]];
    }
  }

  /** The counters as offsets from the head. */
  lemma Counters(c: Cq)
    requires Valid(c)
    ensures 0 < c.entries && 0 <= c.khead < U32 && 0 <= c.ktail < U32
    ensures |Unseen(c)| == (c.ktail - c.khead) % U32 && |Unseen(c)| < U32
    ensures c.ktail == (c.khead + |Unseen(c)|) % U32
  {
    Offset(c.khead, c.ktail, U32);
  }

  /** A walk from the head towards the counter `count` further on, having passed v entries. */
  lemma Visiting(c: Cq, v: nat, count: nat)
    requires Valid(c) && v <= count <= |Unseen(c)|
    ensures var head := (c.khead + v) % U32;
            && (head == (c.khead + count) % U32 <==> v == count)
            && (head + 1) % U32 == (c.khead + v + 1) % U32
            && c.entries > 0 && (head % c.entries) * Step(c.wide) < |c.cqes|
            && (v < count ==> c.cqes[(head % c.entries) * Step(c.wide)] == Unseen(c)[v])
    ensures v == 0 ==> c.khead == (c.khead + v) % U32
    ensures c.ktail == (c.khead + |Unseen(c)|) % U32
  {
    hide Unseen;
    Counters(c);
    ModSmall(c.khead, U32);
    ModAdd(c.khead + v, 1, U32);
    if (c.khead + v) % U32 == (c.khead + count) % U32 {
      ModInjective(c.khead + v, c.khead + count, U32);
    }
    SlotBound((c.khead + v) % U32, c.entries, c.wide);
    if v < count {
      UnseenAt(c, v);
    }
  }

  lemma SlotBound(head: int, entries: nat, wide: bool)
    requires entries > 0
    ensures (head % entries) * Step(wide) == Slot(head, entries, wide) < entries * Step(wide)
  {
  }

  lemma EmptyRing(c: Cq, order: nat)
    requires order <= 16 && c.entries == Pow2(order) && |c.cqes| == c.entries * Step(c.wide)
    requires 0 <= c.khead == c.ktail < U32
    ensures Valid(c) && Unseen(c) == []
  {
    hide Pow2;
    Pow2Monotone(order, 16);
    Pow2Divides(order, 32);
    PowerValues();
  }
}
