// Power-of-two rings addressed by free-running counters that wrap at some power of two m: which slot a
// counter names, and the entries between two counters.
module RingIndex {
  import opened Arith

  /** user_data of liburing's own timeouts, in their submission and their completion entries. */
  const UDATA_TIMEOUT: int := U64 - 1

  function Step(wide: bool): nat {
    if wide then 2 else 1
  }

  /** (index & ring_mask) << shift */
  function Slot(index: int, entries: nat, wide: bool): (k: nat)
    requires entries > 0
    ensures k < entries * Step(wide)
  {
    (index % entries) * Step(wide)
  }

  /** The `count` slots from counter value `index` on, in counter order. */
  function Range<T>(slots: seq<T>, entries: nat, wide: bool, index: int, count: nat): (r: seq<T>)
    requires entries > 0 && |slots| == entries * Step(wide)
    ensures |r| == count
    decreases count
  {
    if count == 0 then []
    else Range(slots, entries, wide, index, count - 1) + [slots[Slot(index + count - 1, entries, wide)]]
  }

  /** Slots of counters closer than the ring size differ, however the counters wrapped. */
  lemma SlotsDiffer(a: int, b: int, entries: nat, wide: bool)
    requires entries > 0 && a != b && a - b < entries && b - a < entries
    ensures Slot(a, entries, wide) != Slot(b, entries, wide)
  {
    if a % entries == b % entries {
      ModInjective(a, b, entries);
    }
  }

  lemma SlotWraps(a: int, d: int, entries: nat, wide: bool, m: int)
    requires entries > 0 && m > 0 && m % entries == 0
    ensures Slot(a % m + d, entries, wide) == Slot(a + d, entries, wide)
  {
    ModMod(a, m, entries);
    ModAdd(a % m, d, entries);
    ModAdd(a, d, entries);
  }

  lemma Offsets(a: int, b: int, c: int, d: nat, e: nat, m: int)
    requires 0 <= a < m && 0 <= b < m && 0 <= c < m && d + e < m
    requires d == (b - a) % m && e == (c - b) % m
    ensures b == (a + d) % m && c == (b + e) % m && c == (a + d + e) % m
    ensures (c - a) % m == d + e
  {
    Offset(a, b, m);
    Offset(b, c, m);
    ModAdd(a + d, e, m);
    WrappedDistance(a + d + e, a, m);
    ModSmall(a, m);
  }

  lemma Offset(a: int, b: int, m: int)
    requires 0 <= a < m && 0 <= b < m
    ensures b == (a + (b - a) % m) % m
  {
    ModAdd(b - a, a, m);
    ModSmall(b, m);
  }

  /** Moving a tail: the distance grows by one when it stays below m. */
  lemma DistanceGrows(head: int, tail: int, d: nat, m: int)
    requires 0 <= head < m && tail == (head + d) % m && d + 1 < m
    ensures ((tail + 1) % m - head) % m == d + 1
  {
    ModAdd(head + d, 1, m);
    WrappedDistance(head + d + 1, head, m);
    ModSmall(head, m);
  }

  /** A write at counter p, near a range but outside it, does not show in the range. */
  lemma {:induction false} RangeElsewhere<T>(
      slots: seq<T>, entries: nat, wide: bool, index: int, count: nat, p: int, e: T)
    requires entries > 0 && |slots| == entries * Step(wide)
    requires index + count <= p < index + entries || index + count - entries <= p < index
    ensures Range(slots[Slot(p, entries, wide) := e], entries, wide, index, count)
         == Range(slots, entries, wide, index, count)
    decreases count
  {
    if count > 0 {
      SlotsDiffer(index + count - 1, p, entries, wide);
      RangeElsewhere(slots, entries, wide, index, count - 1, p, e);
    }
  }

  /** A write at the j-th counter of a range replaces its j-th element. */
  lemma {:induction false} RangeUpdate<T>(
      slots: seq<T>, entries: nat, wide: bool, index: int, count: nat, j: nat, e: T)
    requires entries > 0 && |slots| == entries * Step(wide) && j < count <= entries
    ensures Range(slots[Slot(index + j, entries, wide) := e], entries, wide, index, count)
         == Range(slots, entries, wide, index, count)[j := e]
    decreases count
  {
    if j == count - 1 {
      RangeElsewhere(slots, entries, wide, index, count - 1, index + j, e);
    } else {
      RangeUpdate(slots, entries, wide, index, count - 1, j, e);
      SlotsDiffer(index + count - 1, index + j, entries, wide);
    }
  }

  /** A range may start at the wrapped counter. */
  lemma {:induction false} RangeWraps<T>(slots: seq<T>, entries: nat, wide: bool, index: int, count: nat, m: int)
    requires entries > 0 && |slots| == entries * Step(wide) && m > 0 && m % entries == 0
    ensures Range(slots, entries, wide, index % m, count) == Range(slots, entries, wide, index, count)
    decreases count
  {
    if count > 0 {
      RangeWraps(slots, entries, wide, index, count - 1, m);
      SlotWraps(index, count - 1, entries, wide, m);
    }
  }

  lemma {:induction false} RangeSplit<T>(slots: seq<T>, entries: nat, wide: bool, index: int, a: nat, b: nat)
    requires entries > 0 && |slots| == entries * Step(wide)
    ensures Range(slots, entries, wide, index, a + b)
         == Range(slots, entries, wide, index, a) + Range(slots, entries, wide, index + a, b)
    decreases b
  {
    if b > 0 {
      RangeSplit(slots, entries, wide, index, a, b - 1);
      assert index + (a + b) - 1 == index + a + b - 1;
    }
  }

  /** Writing the slot right after a range makes the range one longer. */
  lemma RangeGrows<T>(slots: seq<T>, entries: nat, wide: bool, index: int, count: nat, e: T)
    requires entries > 0 && |slots| == entries * Step(wide) && count < entries
    ensures Range(slots[Slot(index + count, entries, wide) := e], entries, wide, index, count + 1)
         == Range(slots, entries, wide, index, count) + [e]
  {
    RangeElsewhere(slots, entries, wide, index, count, index + count, e);
  }

  lemma RangeEmpty<T>(slots: seq<T>, entries: nat, wide: bool, index: int)
    requires entries > 0 && |slots| == entries * Step(wide)
    ensures Range(slots, entries, wide, index, 0) == []
  {
  }

  /** Two adjoining ranges are one range, also when the second starts at the wrapped counter. */
  lemma RangeJoins<T>(slots: seq<T>, entries: nat, wide: bool, index: int, a: nat, b: nat, m: int)
    requires entries > 0 && |slots| == entries * Step(wide) && m > 0 && m % entries == 0
    ensures Range(slots, entries, wide, index, a + b)
         == Range(slots, entries, wide, index, a) + Range(slots, entries, wide, (index + a) % m, b)
  {
    RangeSplit(slots, entries, wide, index, a, b);
    RangeWraps(slots, entries, wide, index + a, b, m);
  }

  lemma RangeOne<T>(slots: seq<T>, entries: nat, wide: bool, index: int)
    requires entries > 0 && |slots| == entries * Step(wide)
    ensures Range(slots, entries, wide, index, 1) == [slots[Slot(index, entries, wide)]]
  {
    assert Range(slots, entries, wide, index, 0) == [];
  }

  lemma ConsumeDistance(head: int, tail: int, d: nat, m: int)
    requires 0 < d < m && tail == (head + d) % m
    ensures (tail - (head + 1) % m) % m == d - 1
  {
    WrappedDistance(head + d, head + 1, m);
  }
}
