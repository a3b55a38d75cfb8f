// The next-fit buffer allocator of src/buffer_pool.hpp: one fixed array of
// buffers per size, handed out by a cyclic scan and returned by a 16-bit index.
module BufferPool {
  import opened Arith
  import opened Options

  datatype BufferState = Free | CheckedOut

  /** `slot` is the buffer itself (iovec), `index` the uint16_t that names it for check_in. */
  datatype CheckedOutBuf = CheckedOutBuf(size: nat, slot: nat, index: nat)

  datatype PoolState = PoolState(capacity: nat, states: map<nat, seq<BufferState>>, next: map<nat, nat>)

  /** Buffer k of a size, as check_out returns it. */
  function Named(size: nat, k: nat): CheckedOutBuf {
    CheckedOutBuf(size, k, k % U16)
  }

  ghost predicate Valid(p: PoolState) {
    && p.states.Keys == p.next.Keys
    && (forall size :: size in p.states ==> |p.states[size]| == p.capacity)
    && (forall size :: size in p.next ==> p.next[size] < p.capacity || p.capacity == p.next[size] == 0)
  }

  /** The slot the scan looks at in its i-th step. */
  function At(next: nat, i: nat, capacity: nat): (k: nat)
    requires capacity > 0
    ensures k < capacity
  {
    (next + i) % capacity
  }

  /** The scan of check_out from its i-th step on: the first free slot, cyclically from `next`. */
  function Scan(state: seq<BufferState>, next: nat, i: nat): (r: Option<nat>)
    requires i <= |state|
    ensures r.Some? ==> r.value < |state|
    decreases |state| - i
  {
    if i == |state| then None
    else
      var index := At(next, i, |state|);
      if state[index].Free? then Some(index) else Scan(state, next, i + 1)
  }

  function CheckOutOf(p: PoolState, size: nat): (r: (PoolState, Option<CheckedOutBuf>))
    requires Valid(p)
  {
    if size !in p.states then (p, None)
    else
      match Scan(p.states[size], p.next[size], 0)
      case None => (p, None)
      case Some(k) =>
        (p.(states := p.states[size := p.states[size][k := CheckedOut]],
            next := p.next[size := (k + 1) % p.capacity]),
         Some(CheckedOutBuf(size, k, k % U16)))
  }

  /** A known size needs an index inside the array. */
  predicate CanCheckIn(p: PoolState, size: nat, index: nat) {
    size in p.states ==> index < |p.states[size]|
  }

  function CheckInTo(p: PoolState, size: nat, index: nat): PoolState
    requires CanCheckIn(p, size, index)
  {
    if size in p.states then p.(states := p.states[size := p.states[size][index := Free]]) else p
  }

  // ---------- the scan ----------

  /** The scan meets every slot... */
  lemma VisitsEverySlot(next: nat, capacity: nat, slot: nat)
    requires slot < capacity
    ensures var i := (slot - next) % capacity; 0 <= i < capacity && At(next, i, capacity) == slot
  {
    ModAdd(slot - next, next, capacity);
    ModSmall(slot, capacity);
  }

  /** ...and none twice. */
  lemma VisitsOnce(next: nat, capacity: nat, i: nat, j: nat)
    requires i < capacity && j < capacity && At(next, i, capacity) == At(next, j, capacity)
    ensures i == j
  {
    ModInjective(next + i, next + j, capacity);
  }

  /** Steps i to d of the scan meet taken buffers only. */
  ghost predicate TakenBetween(state: seq<BufferState>, next: nat, i: nat, d: nat)
    requires d <= |state|
  {
    forall j: nat {:trigger At(next, j, |state|)} :: i <= j < d ==> state[At(next, j, |state|)].CheckedOut?
  }

  /** The scan stops at the cyclically first free slot and gives up only when all it met were taken. */
  lemma {:induction false} ScanIsFirstFit(state: seq<BufferState>, next: nat, i: nat) returns (d: nat)
    requires i <= |state|
    ensures i <= d <= |state| && TakenBetween(state, next, i, d)
    ensures match Scan(state, next, i)
            case None => d == |state|
            case Some(k) => d < |state| && k == At(next, d, |state|) && state[k].Free?
    decreases |state| - i
  {
    hide At;
    d := i;
    if i < |state| && state[At(next, i, |state|)].CheckedOut? {
      d := ScanIsFirstFit(state, next, i + 1);
    }
  }

  lemma TakenEverywhere(state: seq<BufferState>, next: nat, k: nat)
    requires TakenBetween(state, next, 0, |state|) && k < |state|
    ensures state[k].CheckedOut?
  {
    VisitsEverySlot(next, |state|, k);
  }

  /** check_out throws exactly when the size is unknown or every buffer of that size is checked out. */
  lemma ThrowsIffExhausted(p: PoolState, size: nat)
    requires Valid(p)
    ensures CheckOutOf(p, size).1.None? <==>
              size !in p.states || forall k :: 0 <= k < p.capacity ==> p.states[size][k].CheckedOut?
  {
    hide At, TakenBetween;
    if size in p.states {
      var state, next := p.states[size], p.next[size];
      var d := ScanIsFirstFit(state, next, 0);
      if Scan(state, next, 0).None? {
        forall k | 0 <= k < p.capacity
          ensures state[k].CheckedOut?
        {
          TakenEverywhere(state, next, k);
        }
      }
    }
  }

  // ---------- what a client of the pool sees ----------

  /** How many buffers of one size are checked out. */
  function Live(state: seq<BufferState>): (n: nat)
    ensures n <= |state|
  {
    if state == [] then 0
    else Live(state[..|state| - 1]) + if state[|state| - 1].CheckedOut? then 1 else 0
  }

  lemma {:induction false} LiveUpdate(state: seq<BufferState>, k: nat, s: BufferState)
    requires k < |state| && state[k] != s
    ensures Live(state[k := s]) == Live(state) + if s.CheckedOut? then 1 else -1
  {
    var n := |state| - 1;
    if k == n {
      assert state[k := s][..n] == state[..n];
    } else {
      assert state[k := s][..n] == state[..n][k := s];
      LiveUpdate(state[..n], k, s);
    }
  }

  lemma {:induction false} LiveWhenAllTaken(state: seq<BufferState>)
    ensures Live(state) == |state| <==> forall k :: 0 <= k < |state| ==> state[k].CheckedOut?
  {
    if state != [] {
      var n := |state| - 1;
      LiveWhenAllTaken(state[..n]);
      if forall k :: 0 <= k < n ==> state[..n][k].CheckedOut? {
        assert forall k :: 0 <= k < n ==> state[k] == state[..n][k];
      } else {
        var k :| 0 <= k < n && !state[..n][k].CheckedOut?;
        assert state[k].Free?;
      }
    }
  }

  /** In counts: check_out of a known size throws exactly when as many buffers are live as there are. */
  lemma ThrowsIffLiveIsCapacity(p: PoolState, size: nat)
    requires Valid(p) && size in p.states
    ensures CheckOutOf(p, size).1.None? <==> Live(p.states[size]) == p.capacity
  {
    ThrowsIffExhausted(p, size);
    LiveWhenAllTaken(p.states[size]);
  }

  /** A buffer handed out was free, is checked out now, and nothing else changed. */
  lemma CheckOutTakes(p: PoolState, size: nat)
    requires Valid(p)
    ensures var (p', r) := CheckOutOf(p, size);
            && Valid(p')
            && (r.None? ==> p' == p)
            && (r.Some? ==>
                  && size in p.states && r.value.size == size && r.value.slot < p.capacity
                  && p.states[size][r.value.slot].Free?
                  && p'.states == p.states[size := p.states[size][r.value.slot := CheckedOut]]
                  && Live(p'.states[size]) == Live(p.states[size]) + 1)
  {
    if size in p.states {
      hide At, TakenBetween;
      var _ := ScanIsFirstFit(p.states[size], p.next[size], 0);
      var r := Scan(p.states[size], p.next[size], 0);
      if r.Some? {
        LiveUpdate(p.states[size], r.value, CheckedOut);
      }
    }
  }

  // ---------- giving back by index ----------

  /** The 16-bit index names the buffer handed out if it fits; it is always a legal index. */
  lemma IndexNamesSlot(p: PoolState, size: nat)
    requires Valid(p)
    ensures var (p', r) := CheckOutOf(p, size);
            r.Some? ==>
              && CanCheckIn(p', size, r.value.index)
              && (r.value.index == r.value.slot <==> r.value.slot < U16)
  {
    CheckOutTakes(p, size);
    var r := CheckOutOf(p, size).1;
    if r.Some? {
      IndexOf(r.value.slot);
    }
  }

  lemma IndexOf(slot: nat)
    ensures slot % U16 <= slot && (slot % U16 == slot <==> slot < U16)
  {
    if slot < U16 {
      ModSmall(slot, U16);
    }
  }

  /** check_in undoes the check_out whose index it is given, when that index names the slot. */
  lemma CheckInUndoes(p: PoolState, size: nat)
    requires Valid(p) && CheckOutOf(p, size).1.Some? && CheckOutOf(p, size).1.value.slot < U16
    ensures var (p', r) := CheckOutOf(p, size);
            CanCheckIn(p', size, r.value.index) && CheckInTo(p', size, r.value.index).states == p.states
  {
    CheckOutTakes(p, size);
    IndexNamesSlot(p, size);
    var k := CheckOutOf(p, size).1.value.slot;
    assert p.states[size][k := CheckedOut][k := Free] == p.states[size];
    assert p.states[size := p.states[size]] == p.states;
  }

  /** check_out followed by check_in with the index it returned leaves the states as they were. */
  ghost predicate RoundTrips(p: PoolState, size: nat)
    requires Valid(p)
  {
    var (p', r) := CheckOutOf(p, size);
    r.Some? ==> CanCheckIn(p', size, r.value.index) && CheckInTo(p', size, r.value.index).states == p.states
  }

  /** A pool as constructed for one size. */
  function NewPool(capacity: nat): (p: PoolState)
    ensures Valid(p)
  {
    PoolState(capacity, map[0 := seq(capacity, _ => Free)], map[0 := 0])
  }

  /** A pool after n more check-outs of one size. */
  ghost function AfterCheckOuts(p: PoolState, size: nat, n: nat): (r: PoolState)
    requires Valid(p)
    ensures Valid(r)
  {
    if n == 0 then p
    else
      var q := AfterCheckOuts(p, size, n - 1);
      CheckOutTakes(q, size);
      CheckOutOf(q, size).0
  }

  /** A pool whose first n buffers are checked out. */
  function FirstTaken(capacity: nat, n: nat): (p: PoolState)
    requires n < capacity
    ensures Valid(p)
  {
    PoolState(capacity, map[0 := seq(capacity, i => if i < n then CheckedOut else Free)], map[0 := n])
  }

  /** The next check-out of such a pool takes buffer n. */
  lemma TakesNext(capacity: nat, n: nat)
    requires n < capacity
    ensures CheckOutOf(FirstTaken(capacity, n), 0).1 == Some(Named(0, n))
    ensures n + 1 < capacity ==> CheckOutOf(FirstTaken(capacity, n), 0).0 == FirstTaken(capacity, n + 1)
  {
    var p := FirstTaken(capacity, n);
    ModSmall(n, capacity);
    assert Scan(p.states[0], n, 0) == Some(n);
    if n + 1 < capacity {
      ModSmall(n + 1, capacity);
      assert p.states[0][n := CheckedOut] == FirstTaken(capacity, n + 1).states[0];
    }
  }

  /** Check-outs alone hand out the buffers of a new pool in order. */
  lemma {:induction false} CheckOutsInOrder(capacity: nat, n: nat)
    requires n < capacity
    ensures AfterCheckOuts(NewPool(capacity), 0, n) == FirstTaken(capacity, n)
  {
    hide CheckOutOf, Scan, Valid;
    if n == 0 {
      assert NewPool(capacity).states[0] == FirstTaken(capacity, 0).states[0];
    } else {
      CheckOutsInOrder(capacity, n - 1);
      TakesNext(capacity, n - 1);
    }
  }

  /**
   * With more than 65536 buffers, check_out after 65536 others returns index 0, and check_in of that
   * index frees the buffer handed out first, which is still in use.
   */
  lemma TruncationFreesAnother(capacity: nat, n: nat)
    requires capacity > n == U16
    ensures var p := AfterCheckOuts(NewPool(capacity), 0, n);
            && CheckOutOf(p, 0).1 == Some(CheckedOutBuf(0, n, 0))
            && CheckInTo(CheckOutOf(p, 0).0, 0, 0).states[0][0].Free?
            && CheckInTo(CheckOutOf(p, 0).0, 0, 0).states[0][n].CheckedOut?
            && p.capacity == capacity && !RoundTrips(p, 0)
  {
    hide AfterCheckOuts;
    CheckOutsInOrder(capacity, n);
    TakesNext(capacity, n);
    var p := FirstTaken(capacity, n);
    assert p.states[0][0].CheckedOut?;
  }

  lemma SmallPoolRoundTrips(p: PoolState, size: nat)
    requires Valid(p) && p.capacity <= U16
    ensures RoundTrips(p, size)
  {
    CheckOutTakes(p, size);
    if CheckOutOf(p, size).1.Some? {
      CheckInUndoes(p, size);
    }
  }

  /** The 16-bit index loses nothing, in any state of any pool of this capacity, up to 65536 buffers. */
  lemma RoundTripsIffIndexFits(capacity: nat)
    ensures (forall p, size :: Valid(p) && p.capacity == capacity ==> RoundTrips(p, size)) <==> capacity <= U16
  {
    hide RoundTrips, AfterCheckOuts;
    if capacity <= U16 {
      forall p, size | Valid(p) && p.capacity == capacity
        ensures RoundTrips(p, size)
      {
        SmallPoolRoundTrips(p, size);
      }
    } else {
      TruncationFreesAnother(capacity, U16);
    }
  }

  // ---------- which buffer is next ----------

  lemma SameReach(p: PoolState, q: PoolState, size: nat, index: nat)
    requires Valid(p) && Valid(q) && q.capacity == p.capacity && q.states.Keys == p.states.Keys
    requires CanCheckIn(p, size, index)
    ensures CanCheckIn(q, size, index)
    ensures var r := CheckInTo(q, size, index);
            Valid(r) && r.next == q.next && r.capacity == q.capacity && r.states.Keys == q.states.Keys
  {
    assert size in q.states ==> size in p.states.Keys;
  }

  /** The pool after these buffers of any sizes were checked in. */
  function AfterCheckIns(p: PoolState, ins: seq<CheckedOutBuf>): (q: PoolState)
    requires Valid(p) && forall i :: 0 <= i < |ins| ==> CanCheckIn(p, ins[i].size, ins[i].index)
    ensures Valid(q) && q.next == p.next && q.capacity == p.capacity && q.states.Keys == p.states.Keys
    decreases |ins|
  {
    if ins == [] then p
    else
      var before, last := ins[..|ins| - 1], ins[|ins| - 1];
      assert forall i :: 0 <= i < |before| ==> before[i] == ins[i];
      assert CanCheckIn(p, last.size, last.index);
      var q := AfterCheckIns(p, before);
      SameReach(p, q, last.size, last.index);
      CheckInTo(q, last.size, last.index)
  }

  /** The distance of slot k from the one behind slot b, going round. */
  function Behind(b: nat, k: nat, capacity: nat): nat
    requires capacity > 0
  {
    (k - (b + 1)) % capacity
  }

  /** All slots behind b and before r, going round, are taken. */
  ghost predicate TakenUpTo(state: seq<BufferState>, b: nat, r: nat) {
    forall k :: 0 <= k < |state| && Behind(b, k, |state|) < Behind(b, r, |state|) ==> state[k].CheckedOut?
  }

  lemma ScanFrom(b: nat, j: nat, capacity: nat)
    requires j < capacity
    ensures At((b + 1) % capacity, j, capacity) == (b + 1 + j) % capacity
    ensures Behind(b, (b + 1 + j) % capacity, capacity) == j
  {
    ModAdd(b + 1, j, capacity);
    ModAdd(b + 1 + j, -(b + 1), capacity);
    ModSmall(j, capacity);
  }

  /** A scan that starts behind slot b. */
  lemma ScanBehind(state: seq<BufferState>, b: nat)
    requires b < |state|
    ensures var r := Scan(state, (b + 1) % |state|, 0);
            r.Some? ==> TakenUpTo(state, b, r.value) && (r.value == b ==> OthersTaken(state, b))
  {
    hide At, TakenBetween;
    var n, next := |state|, (b + 1) % |state|;
    var d := ScanIsFirstFit(state, next, 0);
    if Scan(state, next, 0).Some? {
      var r := Scan(state, next, 0).value;
      ScanFrom(b, d, n);
      forall k | 0 <= k < n && Behind(b, k, n) < Behind(b, r, n)
        ensures state[k].CheckedOut?
      {
        TakenBehind(state, b, d, k);
      }
      if r == b {
        forall k | 0 <= k < n && k != b
          ensures state[k].CheckedOut?
        {
          LastBehind(b, k, n);
        }
      }
    }
  }

  ghost predicate OthersTaken(state: seq<BufferState>, b: nat) {
    forall k :: 0 <= k < |state| && k != b ==> state[k].CheckedOut?
  }

  /** A check-out leaves the next scan of its size to start behind the buffer it handed out. */
  lemma StartsBehind(p: PoolState, size: nat)
    requires Valid(p) && CheckOutOf(p, size).1.Some?
    ensures var (p', b) := CheckOutOf(p, size);
            && Valid(p') && p'.capacity == p.capacity > b.value.slot && p'.states.Keys == p.states.Keys
            && size in p.states && size in p'.next && p'.next[size] == (b.value.slot + 1) % p.capacity
  {
  }

  /**
   * Next fit: a check-out hands out the first free buffer behind the one handed out last, going
   * round, whatever was checked in meanwhile. So a buffer given back is handed out again at once
   * only when every other buffer of its size is taken.
   */
  lemma NextFit(p: PoolState, size: nat, p': PoolState, b: CheckedOutBuf, ins: seq<CheckedOutBuf>)
    requires Valid(p) && CheckOutOf(p, size) == (p', Some(b)) && Valid(p')
    requires forall i :: 0 <= i < |ins| ==> CanCheckIn(p', ins[i].size, ins[i].index)
    ensures var q := AfterCheckIns(p', ins);
            var r := CheckOutOf(q, size).1;
            && size in q.states
            && (r.Some? ==>
                  && TakenUpTo(q.states[size], b.slot, r.value.slot)
                  && (r.value.slot == b.slot ==> OthersTaken(q.states[size], b.slot)))
  {
    hide Scan, AfterCheckIns, TakenUpTo, OthersTaken;
    StartsBehind(p, size);
    ScanBehind(AfterCheckIns(p', ins).states[size], b.slot);
  }

  lemma TakenBehind(state: seq<BufferState>, b: nat, d: nat, k: nat)
    requires k < |state| && d <= |state| && Behind(b, k, |state|) < d
    requires TakenBetween(state, (b + 1) % |state|, 0, d)
    ensures state[k].CheckedOut?
  {
    var j := Behind(b, k, |state|);
    ModAdd(k - (b + 1), b + 1, |state|);
    ModSmall(k, |state|);
    ScanFrom(b, j, |state|);
    assert At((b + 1) % |state|, j, |state|) == k;
  }

  /** Every other slot comes before the slot itself. */
  lemma LastBehind(b: nat, k: nat, n: nat)
    requires b < n && k < n && k != b
    ensures Behind(b, k, n) < Behind(b, b, n)
  {
    ModAdd(-1, n, n);
    if k > b {
      ModSmall(k - (b + 1), n);
    } else {
      ModAddMultiple(k - (b + 1), n);
      ModSmall(k - (b + 1) + n, n);
    }
    ModAddMultiple(-1, n);
    ModSmall(n - 1, n);
  }

  // ---------- runs ----------

  datatype Action = Out(size: nat) | In(buf: CheckedOutBuf)

  /** A pool and the buffers its client holds. */
  datatype World = World(pool: PoolState, held: set<CheckedOutBuf>)

  ghost predicate Next(w: World, a: Action, w': World) {
    Valid(w.pool) &&
    match a
    case Out(size) =>
      var (p, r) := CheckOutOf(w.pool, size);
      w' == World(p, if r.Some? then w.held + {r.value} else w.held)
    case In(buf) =>
      && buf in w.held && CanCheckIn(w.pool, buf.size, buf.index)
      && w' == World(CheckInTo(w.pool, buf.size, buf.index), w.held - {buf})
  }

  /** What is checked out is what the client holds, each buffer once and under its own index. */
  ghost predicate Inv(w: World)
    ensures Inv(w) ==> HeldExactly(w)
  {
    && HeldExactly(w) && forall size: nat :: size in w.pool.states ==> LiveMatches(w, size)
  }

  function HeldOf(held: set<CheckedOutBuf>, size: nat): set<CheckedOutBuf> {
    set b | b in held && b.size == size
  }

  /** As many buffers of this size are checked out as are held; the rest are free. */
  ghost predicate LiveMatches(w: World, size: nat)
    requires size in w.pool.states
  {
    Live(w.pool.states[size]) == |HeldOf(w.held, size)|
  }

  ghost predicate HeldExactly(w: World)
    ensures HeldExactly(w) ==> Valid(w.pool)
  {
    && Valid(w.pool)
    && (forall size, k :: size in w.pool.states && 0 <= k < w.pool.capacity ==>
          (w.pool.states[size][k].CheckedOut? <==> Named(size, k) in w.held))
    && (forall b :: b in w.held ==> b.size in w.pool.states && b.slot < w.pool.capacity && b == Named(b.size, b.slot))
  }

  /** A check-out of this size would not hand out a buffer somebody holds. */
  ghost predicate HandsOutNew(w: World, size: nat)
    requires Valid(w.pool)
  {
    var r := CheckOutOf(w.pool, size).1;
    r.Some? ==> r.value !in w.held
  }

  lemma OutKeepsHeld(w: World, size: nat)
    requires HeldExactly(w)
    ensures var (p, r) := CheckOutOf(w.pool, size);
            HeldExactly(World(p, if r.Some? then w.held + {r.value} else w.held))
    ensures HandsOutNew(w, size)
  {
    CheckOutTakes(w.pool, size);
  }

  /** A check-in keeps the books straight exactly when the 16-bit index names the buffer. */
  lemma InKeepsHeld(w: World, buf: CheckedOutBuf)
    requires HeldExactly(w) && buf in w.held
    ensures CanCheckIn(w.pool, buf.size, buf.index)
    ensures HeldExactly(World(CheckInTo(w.pool, buf.size, buf.index), w.held - {buf})) <==> buf.slot < U16
    ensures buf.slot < U16 ==> buf.index == buf.slot
  {
    IndexOf(buf.slot);
    var w' := World(CheckInTo(w.pool, buf.size, buf.index), w.held - {buf});
    if buf.slot >= U16 {
      assert w'.pool.states[buf.size][buf.slot].CheckedOut?;
      assert Named(buf.size, buf.slot) == buf;
    }
  }

  /** The action does not give back a buffer beyond the reach of a 16-bit index. */
  predicate Reachable(a: Action) {
    a.In? ==> a.buf.slot < U16
  }

  /** In a pool of at most 65536 buffers a size every action is. */
  lemma SmallPoolReaches(w: World, a: Action, w': World)
    requires HeldExactly(w) && Next(w, a, w') && w.pool.capacity <= U16
    ensures Reachable(a)
  {
  }

  lemma OutCounts(w: World, size: nat, any: nat)
    requires HeldExactly(w) && any in w.pool.states && LiveMatches(w, any)
    ensures var (p, r) := CheckOutOf(w.pool, size);
            any in p.states && LiveMatches(World(p, if r.Some? then w.held + {r.value} else w.held), any)
  {
    hide HeldExactly;
    OutKeepsHeld(w, size);
    CheckOutTakes(w.pool, size);
    var r := CheckOutOf(w.pool, size).1;
    if r.Some? {
      assert HeldOf(w.held + {r.value}, any) == HeldOf(w.held, any) + if any == size then {r.value} else {};
    }
  }

  lemma InCounts(w: World, buf: CheckedOutBuf, any: nat)
    requires HeldExactly(w) && buf in w.held && buf.slot < U16 && any in w.pool.states && LiveMatches(w, any)
    ensures CanCheckIn(w.pool, buf.size, buf.index)
    ensures var p := CheckInTo(w.pool, buf.size, buf.index);
            any in p.states && LiveMatches(World(p, w.held - {buf}), any)
  {
    InKeepsHeld(w, buf);
    assert w.pool.states[buf.size][buf.slot].CheckedOut? by { assert Named(buf.size, buf.slot) == buf; }
    LiveUpdate(w.pool.states[buf.size], buf.index, Free);
    assert HeldOf(w.held - {buf}, any) == HeldOf(w.held, any) - {buf};
  }

  lemma StepKeeps(w: World, a: Action, w': World)
    requires Inv(w) && Next(w, a, w')
    ensures Inv(w') <==> Reachable(a)
    ensures w'.pool.capacity == w.pool.capacity
  {
    hide HeldExactly, LiveMatches, CheckOutOf, CheckInTo;
    match a
    case Out(size) =>
      OutKeepsHeld(w, size);
      SameSizesOut(w.pool, size);
      forall any: nat | any in w'.pool.states
        ensures LiveMatches(w', any)
      {
        OutCounts(w, size, any);
      }
    case In(buf) =>
      InKeepsHeld(w, buf);
      SameSizesIn(w.pool, buf.size, buf.index);
      forall any: nat | Reachable(a) && any in w'.pool.states
        ensures LiveMatches(w', any)
      {
        InCounts(w, buf, any);
      }
      SameCapacity(w.pool, buf.size, buf.index);
  }

  lemma SameCapacity(p: PoolState, size: nat, index: nat)
    requires CanCheckIn(p, size, index)
    ensures CheckInTo(p, size, index).capacity == p.capacity
  {
  }

  lemma SameSizesOut(p: PoolState, size: nat)
    requires Valid(p)
    ensures CheckOutOf(p, size).0.states.Keys == p.states.Keys && CheckOutOf(p, size).0.capacity == p.capacity
  {
  }

  lemma SameSizesIn(p: PoolState, size: nat, index: nat)
    requires CanCheckIn(p, size, index)
    ensures CheckInTo(p, size, index).states.Keys == p.states.Keys
  {
  }

  /** A new pool, nothing held. */
  lemma {:induction false} NewPoolHolds(p: PoolState)
    requires Valid(p)
    requires forall size: nat :: size in p.states ==> AllFree(p.states[size])
    ensures Inv(World(p, {}))
  {
    forall size: nat | size in p.states
      ensures LiveMatches(World(p, {}), size)
    {
      FreeMeansNoneLive(p.states[size]);
      assert HeldOf({}, size) == {};
    }
  }

  ghost predicate AllFree(state: seq<BufferState>) {
    forall k :: 0 <= k < |state| ==> state[k].Free?
  }

  lemma {:induction false} FreeMeansNoneLive(state: seq<BufferState>)
    requires AllFree(state)
    ensures Live(state) == 0
  {
    if state != [] {
      FreeMeansNoneLive(state[..|state| - 1]);
    }
  }

  /** A run of the pool from a state in which the books are straight. */
  ghost predicate IsRun(states: seq<World>, actions: seq<Action>) {
    && |states| == |actions| + 1 && Inv(states[0])
    && forall j :: 0 <= j < |actions| ==> Next(states[j], actions[j], states[j + 1])
  }

  /**
   * Over every sequence of check-outs and matching check-ins that a 16-bit index can reach, which
   * in a pool of at most 65536 buffers a size is every sequence: the buffers checked out are
   * exactly those held, as many as the pool counts, a check-out hands out one that nobody holds,
   * and in such a pool held buffers have different indices.
   */
  lemma {:induction false} LiveBuffersAreHeldOnce(states: seq<World>, actions: seq<Action>, i: nat)
    requires IsRun(states, actions) && i < |states|
    requires forall j :: 0 <= j < i ==> states[0].pool.capacity <= U16 || Reachable(actions[j])
    ensures Inv(states[i]) && states[i].pool.capacity == states[0].pool.capacity
    ensures forall size: nat :: HandsOutNew(states[i], size)
    ensures states[0].pool.capacity <= U16 ==>
              forall b, c :: b in states[i].held && c in states[i].held && b.size == c.size && b.index == c.index ==> b == c
  {
    hide HeldExactly, LiveMatches, HandsOutNew, Next, Reachable;
    if i > 0 {
      LiveBuffersAreHeldOnce(states, actions, i - 1);
      if states[0].pool.capacity <= U16 {
        SmallPoolReaches(states[i - 1], actions[i - 1], states[i]);
      }
      StepKeeps(states[i - 1], actions[i - 1], states[i]);
    }
    if states[0].pool.capacity <= U16 {
      IndicesDiffer(states[i]);
    }
    forall size: nat
      ensures HandsOutNew(states[i], size)
    {
      OutKeepsHeld(states[i], size);
    }
  }

  /** The condition is exact: the books stay straight throughout exactly if every check-in is reachable. */
  lemma {:induction false} BooksStraightIffReachable(states: seq<World>, actions: seq<Action>)
    requires IsRun(states, actions)
    ensures (forall i :: 0 <= i < |states| ==> Inv(states[i])) <==> forall j :: 0 <= j < |actions| ==> Reachable(actions[j])
  {
    hide Inv, HandsOutNew, Next, Reachable;
    if forall j :: 0 <= j < |actions| ==> Reachable(actions[j]) {
      forall i | 0 <= i < |states|
        ensures Inv(states[i])
      {
        LiveBuffersAreHeldOnce(states, actions, i);
      }
    }
    if forall i :: 0 <= i < |states| ==> Inv(states[i]) {
      forall j | 0 <= j < |actions|
        ensures Reachable(actions[j])
      {
        assert Inv(states[j]) && Inv(states[j + 1]);
        StepKeeps(states[j], actions[j], states[j + 1]);
      }
    }
  }

  lemma IndicesDiffer(w: World)
    requires HeldExactly(w) && w.pool.capacity <= U16
    ensures forall b, c :: b in w.held && c in w.held && b.size == c.size && b.index == c.index ==> b == c
  {
    forall b | b in w.held
      ensures b.index == b.slot
    {
      IndexOf(b.slot);
    }
  }

  // ---------- the class ----------

  class Pool {
    const capacity: nat
    var states: map<nat, seq<BufferState>>
    var nextIndex: map<nat, nat>

    ghost function View(): PoolState
      reads this
    {
      PoolState(capacity, states, nextIndex)
    }

    /** Every buffer of every size free. Repeating a size replaces its arrays by equal ones. */
    constructor (bufferSizes: seq<nat>, capacity: nat)
      ensures Valid(View()) && this.capacity == capacity
      ensures states.Keys == set size | size in bufferSizes
      ensures forall size: nat :: size in states ==> AllFree(states[size]) && nextIndex[size] == 0
    {
      this.capacity := capacity;
      states, nextIndex := map[], map[];
      new;
      for i := 0 to |bufferSizes|
        invariant states.Keys == nextIndex.Keys == set size | size in bufferSizes[..i]
        invariant forall size :: size in states ==>
                    |states[size]| == capacity && AllFree(states[size]) && nextIndex[size] == 0
      {
        var state: seq<BufferState> := [];
        for j := 0 to capacity
          invariant |state| == j && AllFree(state)
        {
          state := state + [Free];
        }
        states := states[bufferSizes[i] := state];
        nextIndex := nextIndex[bufferSizes[i] := 0];
      }
      assert bufferSizes[..|bufferSizes|] == bufferSizes;
    }

    method CheckOut(size: nat) returns (r: Option<CheckedOutBuf>)
      requires Valid(View())
      modifies this
      ensures (View(), r) == CheckOutOf(old(View()), size)
    {
      if size in states {
        for i := 0 to capacity
          invariant View() == old(View())
          invariant Scan(states[size], nextIndex[size], 0) == Scan(states[size], nextIndex[size], i)
        {
          var index := (nextIndex[size] + i) % capacity;
          if states[size][index].Free? {
            states := states[size := states[size][index := CheckedOut]];
            nextIndex := nextIndex[size := (index + 1) % capacity];
            return Some(CheckedOutBuf(size, index, index % U16));
          }
        }
      }
      r := None;
    }

    method CheckIn(size: nat, index: nat)
      requires CanCheckIn(View(), size, index)
      modifies this`states
      ensures View() == CheckInTo(old(View()), size, index)
    {
      if size in states {
        states := states[size := states[size][index := Free]];
      }
    }
  }
}
