// Outgoing segments of examples/proxy.c without a send ring: two growing
// vectors, one being filled while the other is, or was, being sent.
module ProxyVectors {

  datatype Segment = Segment(data: int, len: int)

  /** struct msg_vec. */
  class MsgVec {
    var iov: array<Segment>
    var vecSize: nat
    var iovLen: nat
    var curIov: nat

    ghost predicate Valid()
      reads this
    {
      iov.Length == vecSize > 0 && curIov <= iovLen <= vecSize
    }

    /** Segments appended and not taken. */
    ghost function Items(): seq<Segment>
      requires Valid()
      reads this, iov
    {
      iov[curIov..iovLen]
    }

    /** init_mvec */
    constructor ()
      ensures Valid() && Items() == [] && curIov == iovLen == 0 && vecSize == 1 && fresh(iov)
    {
      iov := new Segment[1](_ => Segment(0, 0));
      vecSize, iovLen, curIov := 1, 0, 0;
    }

    /** send_append_vec: a full vector doubles, which moves its array. */
    method Append(s: Segment)
      requires Valid()
      modifies this`iov, this`vecSize, this`iovLen, iov
      ensures Valid() && Items() == old(Items()) + [s] && curIov == old(curIov) && iovLen == old(iovLen) + 1
      ensures iov == old(iov) || (fresh(iov) && vecSize == 2 * old(vecSize))
    {
      if iovLen == vecSize {
        vecSize := vecSize * 2;
        var moved := new Segment[vecSize](_ => Segment(0, 0));
        for i := 0 to iovLen
          invariant iov == old(iov) && iovLen == old(iovLen) == iov.Length && vecSize == 2 * old(vecSize)
          invariant fresh(moved) && moved.Length == vecSize
          invariant iov[..] == old(iov[..]) && moved[..i] == iov[..i]
        {
          moved[i] := iov[i];
        }
        iov := moved;
      }
      iov[iovLen] := s;
      iovLen := iovLen + 1;
    }

    /** The next segment; after the last one the vector is reset. */
    method Take() returns (segment: Segment, last: bool)
      requires Valid() && Items() != []
      modifies this`curIov, this`iovLen
      ensures Valid() && segment == old(Items())[0] && Items() == old(Items())[1..]
      ensures last <==> Items() == []
      ensures if last then curIov == iovLen == 0 else iovLen == old(iovLen) && curIov == old(curIov) + 1 < iovLen
    {
      segment := iov[curIov];
      curIov := curIov + 1;
      last := curIov == iovLen;
      if last {
        iovLen, curIov := 0, 0;
      }
    }
  }

  /** What prep_next_send gave to the ring. */
  datatype Submitted = Nothing | SendOne(segment: Segment, more: bool) | SendVector(segments: seq<Segment>)

  function SegmentsOf(s: Submitted): seq<Segment> {
    match s
    case Nothing => []
    case SendOne(segment, _) => [segment]
    case SendVector(segments) => segments
  }

  /** The sending side of a conn_dir: struct io_msg with pending_send. */
  class Sender {
    const sndMsg: bool
    const sndZc: bool
    const vec0: MsgVec
    const vec1: MsgVec
    var vecIndex: bool
    var pendingSend: bool
    /** msg_iov and msg_iovlen of the last sendmsg. */
    var msgIov: array<Segment>
    var msgIovlen: nat
    ghost var appended: seq<Segment>
    ghost var submitted: seq<Segment>

    ghost function Active(): MsgVec
      reads this`vecIndex
    {
      if vecIndex then vec1 else vec0
    }

    ghost function Inactive(): MsgVec
      reads this`vecIndex
    {
      if vecIndex then vec0 else vec1
    }

    /** In both modes the vector not being filled is empty; in sendmsg mode it owns the array in flight. */
    ghost predicate Valid()
      reads this, vec0, vec1, vec0.iov, vec1.iov
    {
      && vec0 != vec1 && vec0.iov != vec1.iov
      && vec0.Valid() && vec1.Valid()
      && Inactive().curIov == Inactive().iovLen == 0
      && (Active().curIov > 0 ==> Active().curIov < Active().iovLen)
      && (sndMsg ==> Active().curIov == 0)
      && (sndMsg && pendingSend ==> msgIov == Inactive().iov && msgIovlen <= msgIov.Length)
      && appended == submitted + Active().Items()
    }

    /** Segments waiting, oldest first. */
    ghost function Queue(): seq<Segment>
      requires Valid()
      reads this, vec0, vec1, vec0.iov, vec1.iov
    {
      Active().Items()
    }

    /** The segments the kernel is reading from the vector in flight. */
    ghost function InFlight(): seq<Segment>
      requires Valid()
      reads this, vec0, vec1, vec0.iov, vec1.iov
    {
      if sndMsg && pendingSend then msgIov[..msgIovlen] else []
    }

    /** init_msgs */
    constructor (sndMsg: bool, sndZc: bool)
      ensures Valid() && Queue() == [] && !pendingSend && appended == submitted == []
      ensures this.sndMsg == sndMsg && this.sndZc == sndZc
      ensures fresh(vec0) && fresh(vec1) && fresh(vec0.iov) && fresh(vec1.iov)
    {
      this.sndMsg, this.sndZc := sndMsg, sndZc;
      vec0 := new MsgVec();
      vec1 := new MsgVec();
      vecIndex, pendingSend, msgIovlen, appended, submitted := false, false, 0, [], [];
      msgIov := new Segment[0];
    }

    /** send_append_vec on the active vector; what is in flight stays where and what it is. */
    method Append(s: Segment)
      requires Valid()
      modifies this`appended, vec0, vec1, vec0.iov, vec1.iov
      ensures Valid() && Queue() == old(Queue()) + [s] && appended == old(appended) + [s]
      ensures InFlight() == old(InFlight())
      ensures unchanged(Inactive()) && unchanged(Inactive().iov)
      ensures Active().iov == old(Active().iov) || fresh(Active().iov)
    {
      var v := if vecIndex then vec1 else vec0;
      v.Append(s);
      appended := appended + [s];
    }

    /**
     * prep_next_send without a send ring: nothing while a send is pending, else the next segment or
     * the whole vector, and the vectors change roles when one is used up.
     */
    method PrepNextSend(outBuffers: nat) returns (s: Submitted)
      requires Valid()
      modifies this`vecIndex, this`pendingSend, this`msgIov, this`msgIovlen, this`submitted, vec0, vec1
      ensures Valid() && appended == old(appended) && submitted == old(submitted) + SegmentsOf(s)
      ensures old(Queue()) == SegmentsOf(s) + Queue()
      ensures s.Nothing? <==> old(pendingSend) || outBuffers == 0 || old(Queue()) == []
      ensures s.SendOne? ==> !sndMsg && (s.more <==> !sndZc && Queue() != [])
      ensures s.SendVector? ==> sndMsg && Queue() == [] && InFlight() == s.segments
      ensures pendingSend == (old(pendingSend) || !s.Nothing?)
      ensures s.Nothing? ==> InFlight() == old(InFlight())
      ensures unchanged(vec0`iov, vec1`iov)
    {
      hide Valid, Queue;
      s := Nothing;
      if pendingSend || outBuffers == 0 {
        return;
      }
      if sndMsg {
        s := SubmitVector();
      } else {
        s := SubmitSegment();
      }
    }

    /** The sendmsg branch: submit the vector prepared so far and start filling the other one. */
    method SubmitVector() returns (s: Submitted)
      requires Valid() && sndMsg && !pendingSend
      modifies this`vecIndex, this`pendingSend, this`msgIov, this`msgIovlen, this`submitted, vec0`iovLen, vec1`iovLen
      ensures Valid() && submitted == old(submitted) + SegmentsOf(s)
      ensures if old(Queue()) == [] then s.Nothing? && Queue() == [] && !pendingSend
              else s == SendVector(old(Queue())) && Queue() == [] && pendingSend && InFlight() == s.segments
    {
      var v := if vecIndex then vec1 else vec0;
      if v.iovLen == 0 {
        return Nothing;
      }
      msgIov, msgIovlen := v.iov, v.iovLen;
      s := SendVector(v.iov[..v.iovLen]);
      v.iovLen := 0;
      vecIndex := !vecIndex;
      pendingSend := true;
      submitted := submitted + SegmentsOf(s);
    }

    /** The send branch: submit the next segment; the last one of a vector makes the other one active. */
    method SubmitSegment() returns (s: Submitted)
      requires Valid() && !sndMsg && !pendingSend
      modifies this`vecIndex, this`pendingSend, this`submitted, vec0`iovLen, vec1`iovLen, vec0`curIov, vec1`curIov
      ensures Valid() && submitted == old(submitted) + SegmentsOf(s)
      ensures if old(Queue()) == [] then s.Nothing? && Queue() == [] && !pendingSend
              else s == SendOne(old(Queue())[0], !sndZc && |old(Queue())| > 1) && Queue() == old(Queue())[1..] && pendingSend
    {
      var v := if vecIndex then vec1 else vec0;
      if v.iovLen == v.curIov {
        return Nothing;
      }
      TakeFirst(v.Items(), submitted);
      var more := !sndZc;
      var segment, last := v.Take();
      if last {
        vecIndex := !vecIndex;
        more := false;
      }
      s := SendOne(segment, more);
      pendingSend := true;
      submitted := submitted + SegmentsOf(s);
    }

    /** The last completion of a send. */
    method SendDone()
      requires Valid()
      modifies this`pendingSend
      ensures Valid() && !pendingSend && Queue() == old(Queue())
    {
      pendingSend := false;
    }

    /**
     * Any interleaving of appends, sends and completions, for a given script: what was submitted is
     * a prefix of what was appended, each segment once and in order, and the rest is still queued.
     */
    method Run(script: seq<Event>)
      requires Valid()
      modifies this, vec0, vec1, vec0.iov, vec1.iov
      ensures Valid() && appended == submitted + Queue()
      ensures appended == old(appended) + Appends(script)
    {
      hide Valid, Queue, InFlight;
      for i := 0 to |script|
        invariant Valid() && appended == old(appended) + Appends(script[..i])
        invariant vec0.iov == old(vec0.iov) || fresh(vec0.iov)
        invariant vec1.iov == old(vec1.iov) || fresh(vec1.iov)
      {
        assert script[..i + 1][..i] == script[..i];
        match script[i]
        case Receive(s) => Append(s);
        case TrySend(outBuffers) => var _ := PrepNextSend(outBuffers);
        case Complete => SendDone();
      }
      assert script[..|script|] == script;
      Accounted();
    }

    lemma Accounted()
      requires Valid()
      ensures appended == submitted + Queue()
    {
    }
  }

  /** Taking the first of the queued segments moves it to the end of the submitted ones. */
  lemma TakeFirst(queue: seq<Segment>, submitted: seq<Segment>)
    requires queue != []
    ensures submitted + queue == (submitted + [queue[0]]) + queue[1..]
  {
  }

  datatype Event = Receive(segment: Segment) | TrySend(outBuffers: nat) | Complete

  function Appends(script: seq<Event>): seq<Segment> {
    if script == [] then []
    else
      var last := script[|script| - 1];
      Appends(script[..|script| - 1]) + if last.Receive? then [last.segment] else []
  }
}
