// The benchmark client of io_uring_fast_net_new: 64-bit tokens that carry a
// buffer index, a direction and a descriptor through the kernel and back.
module ClientTokens {
  import opened Arith

  // ---------- the token ----------

  /** struct UserData with its machine types. */
  datatype Fields = Fields(bufferIdx: bv32, isSend: bool, fd: bv16)

  function PackBits(d: Fields): bv64 {
    ((d.bufferIdx as bv64) & 0xFFFF_FFFF)
    | (((if d.isSend then 1 else 0) & 0x1) << 32)
    | (((d.fd as bv64) & 0xFFFF) << 33)
  }

  function UnpackBits(u: bv64): Fields {
    Fields((u & 0xFFFF_FFFF) as bv32, ((u >> 32) & 0x1) != 0, ((u >> 33) & 0xFFFF) as bv16)
  }

  lemma BitsRoundTrip(d: Fields, u: bv64)
    ensures UnpackBits(PackBits(d)) == d
    ensures PackBits(UnpackBits(u)) == u <==> u < 0x2_0000_0000_0000
  {
  }

  lemma OrIsSum(a: bv64, b: bv64)
    requires a & b == 0
    ensures a | b == a + b
  {
  }

  /** The three fields share no bit, so their disjunction is their sum. */
  lemma PackBitsIsSum(d: Fields)
    ensures PackBits(d) == (d.bufferIdx as bv64) + ((if d.isSend then 1 else 0) << 32) + ((d.fd as bv64) << 33)
  {
    var i, s, f := d.bufferIdx as bv64, if d.isSend then 1 as bv64 else 0, d.fd as bv64;
    FieldsDisjoint(i, s, f);
    OrIsSum(i, s << 32);
    OrIsSum(i | (s << 32), f << 33);
  }

  lemma FieldsDisjoint(i: bv64, s: bv64, f: bv64)
    requires i <= 0xFFFF_FFFF && s <= 1 && f <= 0xFFFF
    ensures i & (s << 32) == 0 && (i | (s << 32)) & (f << 33) == 0
    ensures i & 0xFFFF_FFFF == i && s & 1 == s && f & 0xFFFF == f
  {
  }

  /** The same on numbers: what an int descriptor and index turn into on the way. */
  datatype UserData = UserData(bufferIdx: int, isSend: bool, fd: int)

  function Pack(d: UserData): int {
    d.bufferIdx % U32 + (if d.isSend then U32 else 0) + (d.fd % U16) * (2 * U32)
  }

  function Unpack(u: int): UserData {
    UserData(u % U32, (u / U32) % 2 != 0, u / (2 * U32) % U16)
  }

  lemma UnpackFields(idx: int, s: int, fd: int)
    requires 0 <= idx < U32 && 0 <= s <= 1 && 0 <= fd < U16
    ensures var u := idx + s * U32 + fd * (2 * U32);
            u % U32 == idx && (u / U32) % 2 == s && u / (2 * U32) % U16 == fd
  {
    var u := idx + s * U32 + fd * (2 * U32);
    DivModUnique(u, U32, s + 2 * fd, idx);
    DivModUnique(s + 2 * fd, 2, fd, s);
    DivModUnique(u, 2 * U32, fd, idx + s * U32);
    ModSmall(fd, U16);
  }

  /** A token brings back what was put in exactly when the index fits 32 bits and the descriptor 16. */
  lemma RoundTripsIffFits(d: UserData)
    ensures Unpack(Pack(d)) == d <==> 0 <= d.bufferIdx < U32 && 0 <= d.fd < U16
  {
    UnpackFields(d.bufferIdx % U32, if d.isSend then 1 else 0, d.fd % U16);
    if 0 <= d.bufferIdx < U32 && 0 <= d.fd < U16 {
      ModSmall(d.bufferIdx, U32);
      ModSmall(d.fd, U16);
    }
  }

  // ---------- the operations under way ----------

  datatype Kind = OpSend | OpRecv | OpReadFixed

  /** A request: its kind, the descriptor, the buffer it uses, and its token. */
  datatype Op = Op(kind: Kind, fd: int, buffer: int, userData: int)

  const EAGAIN := 11

  /** How the completion loop is left: by its time limit, by an error, or not at all. */
  datatype Exit = TimeLimit | WaitFailed | SubmitFailed | OpFailed | NoSqe | Blocked | OutOfFuel

  /** What may go wrong: a wait or submit fails, an operation fails or ends, says -EAGAIN, no SQE is free. */
  datatype Faults = Faults(wait: bool, submit: bool, op: bool, again: bool, sqe: bool)

  const NO_FAULTS := Faults(false, false, false, false, false)

  function ReadOp(fd: int, idx: int, halfDuplex: bool): Op {
    Op(if halfDuplex then OpReadFixed else OpRecv, fd, idx, Pack(UserData(idx, false, fd)))
  }

  function SendOp(fd: int, idx: int): Op {
    Op(OpSend, fd, idx, Pack(UserData(idx, true, fd)))
  }

  /** What the client does next with the buffer of a completed operation. */
  function Following(o: Op, res: int, late: bool, halfDuplex: bool): seq<Op> {
    if res == -EAGAIN then [o]
    else if res <= 0 then []
    else if o.kind.OpSend? then [ReadOp(o.fd, o.buffer, false)]
    else if late then []
    else if halfDuplex then [o]
    else [SendOp(o.fd, o.buffer)]
  }

  /** How many of the operations wait for the server's data. */
  function Awaited(outstanding: seq<Op>): (n: nat)
    ensures n <= |outstanding|
  {
    if outstanding == [] then 0
    else Awaited(outstanding[..|outstanding| - 1]) + if outstanding[|outstanding| - 1].kind.OpSend? then 0 else 1
  }

  lemma {:induction false} AwaitedOfTwo(a: seq<Op>, b: seq<Op>)
    ensures Awaited(a + b) == Awaited(a) + Awaited(b)
    decreases |b|
  {
    if b == [] {
      assert a + b == a;
    } else {
      var n := |b| - 1;
      assert (a + b)[..|a| + n] == a + b[..n];
      AwaitedOfTwo(a, b[..n]);
    }
  }

  /** How many completions the operations lead to once time has run out: a send is followed by a receive. */
  function Rest(outstanding: seq<Op>): nat {
    2 * |outstanding| - Awaited(outstanding)
  }

  lemma RestOfTwo(a: seq<Op>, b: seq<Op>)
    ensures Rest(a + b) == Rest(a) + Rest(b)
  {
    AwaitedOfTwo(a, b);
  }

  lemma {:induction false} RestBounds(outstanding: seq<Op>)
    ensures |outstanding| <= Rest(outstanding) <= 2 * |outstanding|
    ensures (forall i :: 0 <= i < |outstanding| ==> !outstanding[i].kind.OpSend?) ==> Rest(outstanding) == |outstanding|
    decreases |outstanding|
  {
    if outstanding != [] {
      RestBounds(outstanding[..|outstanding| - 1]);
    }
  }

  lemma RestOfOne(o: Op)
    ensures Rest([o]) == if o.kind.OpSend? then 2 else 1
  {
    assert [o][..0] == [];
  }

  /** What one completion does to that number, and to the number of operations. */
  lemma RestAfter(outstanding: seq<Op>, i: nat, res: int, late: bool, halfDuplex: bool)
    requires i < |outstanding| && (res > 0 || res == -EAGAIN)
    ensures var next := Following(outstanding[i], res, late, halfDuplex);
            var after := outstanding[..i] + outstanding[i + 1..] + next;
            && Rest(after) == Rest(outstanding) - Rest([outstanding[i]]) + Rest(next)
            && |after| == |outstanding| - 1 + |next| && |next| <= 1 && (!late ==> |next| == 1)
            && Rest(next) == if next == [] then 0 else if next[0].kind.OpSend? then 2 else 1
  {
    var o, next := outstanding[i], Following(outstanding[i], res, late, halfDuplex);
    assert outstanding == outstanding[..i] + [o] + outstanding[i + 1..];
    RestOfTwo(outstanding[..i], [o]);
    RestOfTwo(outstanding[..i] + [o], outstanding[i + 1..]);
    RestOfTwo(outstanding[..i], outstanding[i + 1..]);
    RestOfTwo(outstanding[..i] + outstanding[i + 1..], next);
    if next != [] {
      assert next == [next[0]];
      RestOfOne(next[0]);
    }
  }

  /**
   * Where a run that began with the operations `before` stands after n completions, `agains` of
   * them -EAGAIN and e of them early replies. Before the time limit every operation was replaced;
   * after it every completion brings the end nearer; in full-duplex mode an operation's completions
   * beyond its first two are paid for by early replies.
   */
  ghost predicate OnCourse(
      halfDuplex: bool, before: seq<Op>, now: seq<Op>, e: int, n: nat, agains: nat, deadline: nat)
  {
    && e >= 0
    && (n <= deadline ==> |now| == |before|)
    && (n >= deadline ==> n + Rest(now) <= deadline + (if halfDuplex then |before| else 2 * |before|) + agains)
    && (!halfDuplex ==> n + Rest(now) == Rest(before) + 2 * e + agains)
    && (!halfDuplex && n >= deadline ==> deadline <= |before| + 2 * e + agains)
  }

  lemma CourseMeans(
      halfDuplex: bool, before: seq<Op>, now: seq<Op>, e: int, n: nat, agains: nat, deadline: nat)
    requires OnCourse(halfDuplex, before, now, e, n, agains, deadline)
    ensures e >= 0
    ensures n >= deadline ==> n <= deadline + (if halfDuplex then 1 else 2) * |before| + agains
    ensures n <= deadline && now == [] ==> before == []
    ensures !halfDuplex && n >= deadline ==> deadline <= |before| + 2 * e + agains
  {
  }

  /** No operation of a half-duplex run is a send. */
  lemma RestOfRun(outstanding: seq<Op>, ops: nat, connections: seq<int>, halfDuplex: bool)
    requires TokensOk(outstanding, ops, connections, halfDuplex)
    ensures |outstanding| <= Rest(outstanding) <= (if halfDuplex then |outstanding| else 2 * |outstanding|)
  {
    RestBounds(outstanding);
    assert halfDuplex ==> forall i :: 0 <= i < |outstanding| ==> TokenOk(outstanding[i], ops, connections, halfDuplex);
  }

  lemma StartsOnCourse(before: seq<Op>, ops: nat, connections: seq<int>, halfDuplex: bool, deadline: nat)
    requires TokensOk(before, ops, connections, halfDuplex)
    ensures OnCourse(halfDuplex, before, before, 0, 0, 0, deadline)
  {
    RestOfRun(before, ops, connections, halfDuplex);
  }

  /** One handled completion, of operation i, keeps the run on course. */
  lemma StepsOnCourse(
      before: seq<Op>, now: seq<Op>, e: int, i: nat, res: int, ops: nat, connections: seq<int>, halfDuplex: bool,
      n: nat, agains: nat, deadline: nat)
    requires OnCourse(halfDuplex, before, now, e, n, agains, deadline)
    requires i < |now| && TokensOk(now, ops, connections, halfDuplex) && (res > 0 || res == -EAGAIN)
    requires TokensOk(now[..i] + now[i + 1..] + Following(now[i], res, n >= deadline, halfDuplex),
                      ops, connections, halfDuplex)
    requires TokensOk(before, ops, connections, halfDuplex)
    ensures OnCourse(halfDuplex, before, now[..i] + now[i + 1..] + Following(now[i], res, n >= deadline, halfDuplex),
                     e + (if res > 0 && n < deadline && now[i].kind.OpRecv? then 1 else 0), n + 1,
                     agains + (if res == -EAGAIN then 1 else 0), deadline)
  {
    var late := n >= deadline;
    var after := now[..i] + now[i + 1..] + Following(now[i], res, late, halfDuplex);
    RestAfter(now, i, res, late, halfDuplex);
    RestOfOne(now[i]);
    RestOfRun(after, ops, connections, halfDuplex);
    RestOfRun(before, ops, connections, halfDuplex);
    assert TokenOk(now[i], ops, connections, halfDuplex);
  }

  ghost predicate ConnectionsOk(connections: seq<int>) {
    |connections| > 0 && forall j :: 0 <= j < |connections| ==> 0 <= connections[j] < U16
  }

  /** An operation names its buffer and the descriptor of the connection that buffer belongs to. */
  ghost predicate TokenOk(o: Op, ops: nat, connections: seq<int>, halfDuplex: bool) {
    && |connections| > 0 && 0 <= o.buffer < ops
    && o.fd == connections[o.buffer % |connections|]
    && o.userData == Pack(UserData(o.buffer, o.kind.OpSend?, o.fd))
    && (if halfDuplex then o.kind.OpReadFixed? else !o.kind.OpReadFixed?)
  }

  ghost predicate TokensOk(outstanding: seq<Op>, ops: nat, connections: seq<int>, halfDuplex: bool) {
    forall i :: 0 <= i < |outstanding| ==> TokenOk(outstanding[i], ops, connections, halfDuplex)
  }

  /** No two operations use the same buffer. */
  ghost predicate Exclusive(outstanding: seq<Op>) {
    forall i, j :: 0 <= i < j < |outstanding| ==> outstanding[i].buffer != outstanding[j].buffer
  }

  /** Operation i completes and a new one on the same buffer takes its place. */
  lemma Replaced(outstanding: seq<Op>, i: nat, o: Op, ops: nat, connections: seq<int>, halfDuplex: bool)
    requires i < |outstanding| && TokensOk(outstanding, ops, connections, halfDuplex) && Exclusive(outstanding)
    requires TokenOk(o, ops, connections, halfDuplex) && o.buffer == outstanding[i].buffer
    ensures var next := outstanding[..i] + outstanding[i + 1..] + [o];
            TokensOk(next, ops, connections, halfDuplex) && Exclusive(next)
  {
    var rest := outstanding[..i] + outstanding[i + 1..];
    Removed(outstanding, i, ops, connections, halfDuplex);
    forall j | 0 <= j < |rest|
      ensures rest[j].buffer != o.buffer
    {
      assert rest[j] == outstanding[if j < i then j else j + 1];
    }
  }

  lemma Removed(outstanding: seq<Op>, i: nat, ops: nat, connections: seq<int>, halfDuplex: bool)
    requires i < |outstanding| && TokensOk(outstanding, ops, connections, halfDuplex) && Exclusive(outstanding)
    ensures var rest := outstanding[..i] + outstanding[i + 1..];
            TokensOk(rest, ops, connections, halfDuplex) && Exclusive(rest)
  {
    var rest := outstanding[..i] + outstanding[i + 1..];
    assert forall j :: 0 <= j < |rest| ==> rest[j] == outstanding[if j < i then j else j + 1];
  }

  lemma Added(outstanding: seq<Op>, o: Op, ops: nat, connections: seq<int>, halfDuplex: bool)
    requires TokensOk(outstanding, ops, connections, halfDuplex) && Exclusive(outstanding)
    requires TokenOk(o, ops, connections, halfDuplex)
    requires forall j :: 0 <= j < |outstanding| ==> outstanding[j].buffer < o.buffer
    ensures TokensOk(outstanding + [o], ops, connections, halfDuplex) && Exclusive(outstanding + [o])
  {
  }

  function Sum(s: seq<int>): int {
    if s == [] then 0 else Sum(s[..|s| - 1]) + s[|s| - 1]
  }

  lemma {:induction false} SumUpdate(s: seq<int>, k: nat, d: int)
    requires k < |s|
    ensures Sum(s[k := s[k] + d]) == Sum(s) + d
  {
    var n := |s| - 1;
    if k == n {
      assert s[k := s[k] + d][..n] == s[..n];
    } else {
      assert s[k := s[k] + d][..n] == s[..n][k := s[..n][k] + d];
      SumUpdate(s[..n], k, d);
    }
  }

  lemma {:induction false} SumZeros(n: nat)
    ensures Sum(seq(n, _ => 0)) == 0
  {
    if n > 0 {
      SumZeros(n - 1);
      assert seq(n, _ => 0)[..n - 1] == seq(n - 1, _ => 0);
    }
  }

  // ---------- the client as it runs ----------

  class Client {
    const ops: nat
    const halfDuplex: bool
    const connections: seq<int>
    var fdToConnIndex: map<int, int>
    var outstanding: seq<Op>
    var inflight: int
    var totalRequests: int
    var bytesSent: seq<int>
    var bytesReceived: seq<int>
    var requests: seq<int>
    /** Bytes of all completions handled, by direction. */
    ghost var sent: int
    ghost var received: int
    /** Sends completed: how many replies the server owes in full-duplex mode. */
    ghost var asked: int
    /** Completions handled, and full-duplex replies answered with a new send before the time limit. */
    ghost var handled: nat
    ghost var early: nat

    /** fd_to_conn_index leads from every descriptor to a connection with that descriptor. */
    ghost predicate IndexOk()
      reads this`fdToConnIndex
    {
      forall j :: 0 <= j < |connections| ==>
        connections[j] in fdToConnIndex && 0 <= fdToConnIndex[connections[j]] < |connections|
        && connections[fdToConnIndex[connections[j]]] == connections[j]
    }

    /** The counters of other connections are untouched. */
    ghost predicate Elsewhere(before: seq<int>, after: seq<int>, fd: int) {
      |after| == |before| <= |connections|
      && forall j :: 0 <= j < |before| && connections[j] != fd ==> after[j] == before[j]
    }

    ghost predicate Totals()
      reads this`totalRequests, this`bytesSent, this`bytesReceived, this`requests, this`sent, this`received
    {
      && |bytesSent| == |bytesReceived| == |requests| == |connections|
      && Sum(bytesSent) == sent && Sum(bytesReceived) == received && Sum(requests) == totalRequests
    }

    /** In full-duplex mode a reply came or is awaited for every send completed, and for nothing else. */
    ghost predicate Paired()
      reads this`outstanding, this`totalRequests, this`asked
    {
      !halfDuplex ==> totalRequests + Awaited(outstanding) == asked
    }

    /** Tokens, counters and the index map as every operation finds them. */
    ghost predicate Consistent()
      reads this
    {
      && ConnectionsOk(connections) && ops < U32 && IndexOk() && Totals()
      && TokensOk(outstanding, ops, connections, halfDuplex) && Exclusive(outstanding)
      && inflight == |outstanding| + early && (halfDuplex ==> early == 0)
    }

    ghost predicate Valid()
      reads this
      ensures Valid() ==> Consistent()
    {
      Consistent() && Paired()
    }

    constructor (ops: nat, halfDuplex: bool, connections: seq<int>)
      requires ConnectionsOk(connections) && ops < U32
      ensures Valid() && outstanding == [] && inflight == early == handled == asked == 0
      ensures this.ops == ops && this.halfDuplex == halfDuplex && this.connections == connections
    {
      this.ops, this.halfDuplex, this.connections := ops, halfDuplex, connections;
      fdToConnIndex := map[];
      outstanding, inflight, totalRequests, sent, received, handled, early, asked := [], 0, 0, 0, 0, 0, 0, 0;
      bytesSent := seq(|connections|, _ => 0);
      bytesReceived := seq(|connections|, _ => 0);
      requests := seq(|connections|, _ => 0);
      new;
      SumZeros(|connections|);
      for i := 0 to |connections|
        invariant forall j :: 0 <= j < i ==>
                    connections[j] in fdToConnIndex && 0 <= fdToConnIndex[connections[j]] < |connections|
                    && connections[fdToConnIndex[connections[j]]] == connections[j]
        invariant outstanding == [] && inflight == early == handled == asked == totalRequests == 0 && Totals()
      {
        fdToConnIndex := fdToConnIndex[connections[i] := i];
      }
    }

    /** The operation a buffer begins with: a request to the server, or in half-duplex mode a read. */
    ghost predicate First(o: Op, i: nat)
      requires |connections| > 0
    {
      && o.buffer == i && o.fd == connections[i % |connections|]
      && o.kind == (if halfDuplex then OpReadFixed else OpSend)
      && o.userData == Pack(UserData(i, !halfDuplex, o.fd))
    }

    /** The first loop: one operation a buffer, until the submission ring is full. */
    method Start(sqes: nat)
      requires Valid() && outstanding == [] && inflight == 0
      modifies this`outstanding, this`inflight
      ensures Valid() && |outstanding| == (if sqes < ops then sqes else ops) && inflight == |outstanding|
      ensures forall i :: 0 <= i < |outstanding| ==> First(outstanding[i], i)
    {
      hide Pack, Totals, IndexOk, TokensOk, Exclusive, Awaited;
      for i := 0 to ops
        invariant Valid() && |outstanding| == inflight == i <= sqes
        invariant forall j :: 0 <= j < |outstanding| ==> First(outstanding[j], j)
      {
        if i == sqes {
          break;
        }
        ModSmall(i, ops);
        var bufferIndex, fd := i % ops, connections[i % |connections|];
        var o := if halfDuplex then ReadOp(fd, bufferIndex, true) else SendOp(fd, bufferIndex);
        Added(outstanding, o, ops, connections, halfDuplex);
        OneMore(outstanding, o);
        outstanding := outstanding + [o];
        inflight := inflight + 1;
      }
    }

    lemma OneMore(before: seq<Op>, o: Op)
      ensures Awaited(before + [o]) == Awaited(before) + if o.kind.OpSend? then 0 else 1
    {
      assert (before + [o])[..|before|] == before;
    }

    method CountSent(conn: int, res: int)
      requires Totals() && 0 <= conn < |connections|
      modifies this`bytesSent, this`sent
      ensures Totals() && sent == old(sent) + res && Elsewhere(old(bytesSent), bytesSent, connections[conn])
    {
      SumUpdate(bytesSent, conn, res);
      bytesSent := bytesSent[conn := bytesSent[conn] + res];
      sent := sent + res;
    }

    method CountReceived(conn: int, res: int)
      requires Totals() && 0 <= conn < |connections|
      modifies this`totalRequests, this`bytesReceived, this`requests, this`received
      ensures Totals() && received == old(received) + res && totalRequests == old(totalRequests) + 1
      ensures Elsewhere(old(bytesReceived), bytesReceived, connections[conn])
      ensures Elsewhere(old(requests), requests, connections[conn])
    {
      SumUpdate(bytesReceived, conn, res);
      bytesReceived := bytesReceived[conn := bytesReceived[conn] + res];
      received := received + res;
      SumUpdate(requests, conn, 1);
      requests := requests[conn := requests[conn] + 1];
      totalRequests := totalRequests + 1;
    }

    /** The operation that follows a handled one keeps replies and sends paired. */
    lemma StaysPaired(before: seq<Op>, i: nat, res: int, late: bool)
      requires i < |before| && TokensOk(before, ops, connections, halfDuplex) && (res > 0 || res == -EAGAIN)
      ensures var o := before[i];
              var next := before[..i] + before[i + 1..] + Following(o, res, late, halfDuplex);
              !halfDuplex ==>
                Awaited(next) == Awaited(before) + (if res < 0 then 0 else if o.kind.OpSend? then 1 else -1)
    {
      RestAfter(before, i, res, late, halfDuplex);
      RestOfOne(before[i]);
      assert TokenOk(before[i], ops, connections, halfDuplex);
    }

    lemma ElsewhereNow()
      requires Totals()
      ensures forall fd :: Elsewhere(bytesSent, bytesSent, fd) && Elsewhere(bytesReceived, bytesReceived, fd)
                           && Elsewhere(requests, requests, fd)
    {
    }

    /** The body of the completion loop, on completion of operation i. */
    method HandleOp(i: nat, res: int, late: bool, sqeOk: bool) returns (go: bool)
      requires Consistent() && i < |outstanding|
      modifies this`outstanding, this`inflight, this`totalRequests, this`bytesSent, this`bytesReceived,
               this`requests, this`sent, this`received, this`handled, this`early
      ensures Totals() && (go ==> Consistent()) && handled == old(handled) + 1
      ensures early == old(early) + if go && res > 0 && !late && old(outstanding)[i].kind.OpRecv? then 1 else 0
      ensures var next := Following(old(outstanding)[i], res, late, halfDuplex);
              && (go <==> (res > 0 || res == -EAGAIN) && (next == [] || sqeOk))
              && outstanding == old(outstanding)[..i] + old(outstanding)[i + 1..] + if go then next else []
      ensures var o := old(outstanding)[i];
              && sent == old(sent) + (if res > 0 && o.kind.OpSend? then res else 0)
              && received == old(received) + (if res > 0 && !o.kind.OpSend? then res else 0)
              && totalRequests == old(totalRequests) + (if res > 0 && !o.kind.OpSend? then 1 else 0)
              && Elsewhere(old(bytesSent), bytesSent, o.fd) && Elsewhere(old(bytesReceived), bytesReceived, o.fd)
              && Elsewhere(old(requests), requests, o.fd)
    {
      hide IndexOk, TokensOk, Exclusive, Sum, Pack, Unpack, Totals, Elsewhere, ConnectionsOk;
      ElsewhereNow();
      var o := outstanding[i];
      Read(o, i);
      Removed(outstanding, i, ops, connections, halfDuplex);
      var data := Unpack(o.userData);
      var index, isSend, fd := data.bufferIdx, data.isSend, data.fd;
      var conn := fdToConnIndex[fd];
      ghost var before := outstanding;
      handled := handled + 1;
      outstanding := outstanding[..i] + outstanding[i + 1..];
      if res < 0 && res != -EAGAIN {
        inflight := inflight - 1;
        return false;
      } else if res < 0 {
        if !sqeOk {
          return false;
        }
        var again := if isSend then SendOp(fd, index) else ReadOp(fd, index, halfDuplex);
        Replaced(before, i, again, ops, connections, halfDuplex);
        outstanding := outstanding + [again];
      } else if res == 0 {
        inflight := inflight - 1;
        return false;
      } else if isSend {
        CountSent(conn, res);
        if !halfDuplex {
          if !sqeOk {
            return false;
          }
          Replaced(before, i, ReadOp(fd, index, false), ops, connections, halfDuplex);
          outstanding := outstanding + [ReadOp(fd, index, false)];
        }
      } else {
        CountReceived(conn, res);
        if late {
          inflight := inflight - 1;
        } else {
          if !sqeOk {
            return false;
          }
          if halfDuplex {
            Replaced(before, i, ReadOp(fd, index, true), ops, connections, halfDuplex);
            outstanding := outstanding + [ReadOp(fd, index, true)];
          } else {
            Replaced(before, i, SendOp(fd, index), ops, connections, halfDuplex);
            outstanding := outstanding + [SendOp(fd, index)];
            inflight, early := inflight + 1, early + 1;
          }
        }
      }
      go := true;
    }

    /**
     * One completion: operation i ends with result `res`. The token gives back buffer, direction
     * and descriptor; the buffer's next operation replaces the old one or none does.
     */
    method Handle(i: nat, res: int, late: bool, sqeOk: bool) returns (go: bool)
      requires Valid() && i < |outstanding|
      modifies this`outstanding, this`inflight, this`totalRequests, this`bytesSent, this`bytesReceived,
               this`requests, this`sent, this`received, this`handled, this`early, this`asked
      ensures Totals() && (go ==> Valid()) && handled == old(handled) + 1
      ensures asked == old(asked) + if res > 0 && old(outstanding)[i].kind.OpSend? then 1 else 0
      ensures early == old(early) + if go && res > 0 && !late && old(outstanding)[i].kind.OpRecv? then 1 else 0
      ensures var next := Following(old(outstanding)[i], res, late, halfDuplex);
              && (go <==> (res > 0 || res == -EAGAIN) && (next == [] || sqeOk))
              && outstanding == old(outstanding)[..i] + old(outstanding)[i + 1..] + if go then next else []
      ensures var o := old(outstanding)[i];
              && sent == old(sent) + (if res > 0 && o.kind.OpSend? then res else 0)
              && received == old(received) + (if res > 0 && !o.kind.OpSend? then res else 0)
              && totalRequests == old(totalRequests) + (if res > 0 && !o.kind.OpSend? then 1 else 0)
              && Elsewhere(old(bytesSent), bytesSent, o.fd) && Elsewhere(old(bytesReceived), bytesReceived, o.fd)
              && Elsewhere(old(requests), requests, o.fd)
    {
      hide IndexOk, TokensOk, Exclusive, Totals, Elsewhere, ConnectionsOk, Awaited, Following;
      ghost var before := outstanding;
      go := HandleOp(i, res, late, sqeOk);
      asked := asked + if res > 0 && before[i].kind.OpSend? then 1 else 0;
      if go {
        StaysPaired(before, i, res, late);
      }
    }

    /** A completion's result, when only what `may` allows goes wrong. */
    method Result(may: Faults) returns (res: int)
      ensures res > 0 || if res == -EAGAIN then may.again else may.op
    {
      res := *;
      if !(res > 0 || if res == -EAGAIN then may.again else may.op) {
        res := 1;
      }
    }

    /**
     * The body of the completion loop, after n completions; OutOfFuel says that it is not left here.
     * `before` and `early0` are what the loop began with.
     */
    method Iteration(
        ghost before: seq<Op>, ghost early0: nat, n: nat, ghost agains: nat, deadline: nat, may: Faults)
      returns (exit: Exit, ghost agains': nat)
      requires Valid() && TokensOk(before, ops, connections, halfDuplex)
      requires OnCourse(halfDuplex, before, outstanding, early - early0, n, agains, deadline)
      modifies this`outstanding, this`inflight, this`totalRequests, this`bytesSent, this`bytesReceived,
               this`requests, this`sent, this`received, this`handled, this`early, this`asked
      ensures Totals() && (exit in {TimeLimit, WaitFailed, Blocked, OutOfFuel} ==> Valid())
      ensures early >= early0 && (!may.again ==> agains' == agains) && agains' >= agains
      ensures exit.OutOfFuel? ==>
                && handled == old(handled) + 1
                && OnCourse(halfDuplex, before, outstanding, early - early0, n + 1, agains', deadline)
      ensures exit.TimeLimit? ==>
                && n >= deadline && handled >= old(handled) && outstanding == [] && early == 0
                && (!halfDuplex ==> deadline <= |before| + agains')
      ensures exit.Blocked? ==> outstanding == [] && (before == [] || (!halfDuplex && early > 0))
      ensures handled <= old(handled) + 1
      ensures exit.WaitFailed? ==> may.wait
      ensures exit.SubmitFailed? ==> may.submit
      ensures exit.OpFailed? ==> may.op
      ensures exit.NoSqe? ==> may.sqe
    {
      hide Totals, TokensOk, Exclusive, IndexOk, ConnectionsOk, Awaited, OnCourse, Following;
      CourseMeans(halfDuplex, before, outstanding, early - early0, n, agains, deadline);
      agains' := agains;
      var late := n >= deadline;
      if late && inflight == 0 {
        return TimeLimit, agains;
      }
      var waitFails: bool := *;
      if waitFails && may.wait {
        return WaitFailed, agains;
      }
      if outstanding == [] {
        return Blocked, agains;
      }
      var i: nat :| i < |outstanding| by { assert 0 < |outstanding|; }
      var res := Result(may);
      var noSqe: bool := *;
      ghost var was, early1 := outstanding, early;
      var go := Handle(i, res, late, !(noSqe && may.sqe));
      if !go {
        return if res > 0 || res == -EAGAIN then NoSqe else OpFailed, agains;
      }
      StepsOnCourse(before, was, early1 - early0, i, res, ops, connections, halfDuplex, n, agains, deadline);
      agains' := agains + if res == -EAGAIN then 1 else 0;
      CourseMeans(halfDuplex, before, outstanding, early - early0, n + 1, agains', deadline);
      var submitFails: bool := *;
      if submitFails && may.submit {
        return SubmitFailed, agains';
      }
      exit := if inflight == 0 && late then TimeLimit else OutOfFuel;
    }

    /**
     * The completion loop, for at most `fuel` completions in any order; time runs out after
     * `deadline` of them, and only what `may` allows goes wrong. `agains` counts the -EAGAINs.
     *
     * The loop is left on the time limit only after it, and only with nothing outstanding. In
     * half-duplex mode the wait is never reached with nothing outstanding, so without a fault and
     * with completions enough the limit is where the loop ends. In full-duplex mode every reply
     * that came before the limit raises `inflight` for good: the time limit is reached only if
     * there was none, and a limit of more completions than operations makes one come, so that
     * without a fault the loop then waits for ever.
     */
    method Run(fuel: nat, deadline: nat, may: Faults) returns (exit: Exit, ghost agains: nat)
      requires Valid()
      modifies this`outstanding, this`inflight, this`totalRequests, this`bytesSent, this`bytesReceived,
               this`requests, this`sent, this`received, this`handled, this`early, this`asked
      ensures Totals() && (exit in {TimeLimit, WaitFailed, Blocked, OutOfFuel} ==> Valid())
      ensures !may.again ==> agains == 0
      ensures exit.TimeLimit? ==> outstanding == [] && early == 0 && handled >= old(handled) + deadline
      ensures exit.Blocked? ==> outstanding == [] && (old(outstanding) == [] || (!halfDuplex && early > 0))
      ensures exit.OutOfFuel? ==> handled == old(handled) + fuel
      ensures exit.OutOfFuel? ==> fuel <= deadline + (if halfDuplex then 1 else 2) * |old(outstanding)| + agains
      ensures exit.TimeLimit? && !halfDuplex ==> deadline <= |old(outstanding)| + agains
      ensures exit.WaitFailed? ==> may.wait
      ensures exit.SubmitFailed? ==> may.submit
      ensures exit.OpFailed? ==> may.op
      ensures exit.NoSqe? ==> may.sqe
      ensures may == NO_FAULTS && old(outstanding) != [] && fuel > deadline + 2 * |old(outstanding)| ==>
                if halfDuplex then exit == TimeLimit
                else exit in {TimeLimit, Blocked} && (deadline > |old(outstanding)| ==> exit == Blocked)
    {
      hide Totals, TokensOk, Exclusive, IndexOk, ConnectionsOk, Awaited, OnCourse;
      agains := 0;
      ghost var before, early0 := outstanding, early;
      StartsOnCourse(before, ops, connections, halfDuplex, deadline);
      for n := 0 to fuel
        invariant Valid() && handled == old(handled) + n && early >= early0 && (!may.again ==> agains == 0)
        invariant OnCourse(halfDuplex, before, outstanding, early - early0, n, agains, deadline)
        invariant TokensOk(before, ops, connections, halfDuplex)
      {
        exit, agains := Iteration(before, early0, n, agains, deadline, may);
        if exit != OutOfFuel {
          return;
        }
      }
      CourseMeans(halfDuplex, before, outstanding, early - early0, fuel, agains, deadline);
      exit := OutOfFuel;
    }

    /** The last loop: the results are the sums over the connections. */
    method Results() returns (totalSent: int, totalReceived: int)
      requires Totals()
      ensures totalSent == sent && totalReceived == received && totalRequests == Sum(requests)
    {
      totalSent, totalReceived := 0, 0;
      for i := 0 to |connections|
        invariant totalSent == Sum(bytesSent[..i]) && totalReceived == Sum(bytesReceived[..i])
      {
        assert bytesSent[..i + 1][..i] == bytesSent[..i] && bytesReceived[..i + 1][..i] == bytesReceived[..i];
        totalSent := totalSent + bytesSent[i];
        totalReceived := totalReceived + bytesReceived[i];
      }
      assert bytesSent[..|connections|] == bytesSent && bytesReceived[..|connections|] == bytesReceived;
    }

    /** What the token of an operation says, and where its connection's counters are. */
    lemma Read(o: Op, i: nat)
      requires Consistent() && i < |outstanding| && o == outstanding[i]
      ensures TokenOk(o, ops, connections, halfDuplex)
      ensures Unpack(o.userData) == UserData(o.buffer, o.kind.OpSend?, o.fd)
      ensures o.fd in fdToConnIndex && 0 <= fdToConnIndex[o.fd] < |connections|
      ensures connections[fdToConnIndex[o.fd]] == o.fd
      ensures o == if o.kind.OpSend? then SendOp(o.fd, o.buffer) else ReadOp(o.fd, o.buffer, halfDuplex)
    {
      hide Pack, Unpack;
      RoundTripsIffFits(UserData(o.buffer, o.kind.OpSend?, o.fd));
    }
  }
}
