// Ring sizing in liburing's setup.c: rounding to powers of two, the entry
// counts a setup ends up with, and the memory both rings need.
module RingSetup {
  import opened Arith
  import opened Options
  import opened RingIndex

  const KERN_MAX_ENTRIES: nat := 32768
  const KERN_MAX_CQ_ENTRIES: nat := 2 * KERN_MAX_ENTRIES
  const EINVAL := 22
  const KRING_SIZE: nat := 64
  const CQE_SIZE: nat := 16
  const SQE_SIZE: nat := 64

  /** The number of bits of x up to its highest set one: 32 minus the leading zeros. */
  function Fls(x: nat): (k: nat)
    ensures x == 0 <==> k == 0
  {
    if x == 0 then 0 else 1 + Fls(x / 2)
  }

  lemma {:induction false} FlsBrackets(x: nat)
    requires x > 0
    ensures Pow2(Fls(x) - 1) <= x < Pow2(Fls(x))
  {
    if x == 1 {
      assert Fls(1) == 1 + Fls(0) && Pow2(1) == 2 * Pow2(0);
    } else {
      FlsBrackets(x / 2);
      assert Pow2(Fls(x) - 1) == 2 * Pow2(Fls(x / 2) - 1);
    }
  }

  /** Only the powers above x exceed it: the exponent is the least possible. */
  lemma FlsIsLeast(x: nat, k: nat)
    ensures x < Pow2(k) <==> Fls(x) <= k
  {
    if x > 0 {
      FlsBrackets(x);
      if Fls(x) <= k {
        Pow2Monotone(Fls(x), k);
      } else {
        Pow2Monotone(k, Fls(x) - 1);
      }
    }
  }

  predicate IsPow2(n: nat) {
    n > 0 && n == Pow2(Fls(n) - 1)
  }

  lemma {:induction false} FlsOfPow2(k: nat)
    ensures Fls(Pow2(k)) == k + 1
  {
    if k == 0 {
      assert Fls(1) == 1 + Fls(0);
    } else {
      FlsOfPow2(k - 1);
      assert Pow2(k) / 2 == Pow2(k - 1);
    }
  }

  /** r is the least power of two that is at least n. */
  ghost predicate LeastPow2(r: nat, n: int) {
    IsPow2(r) && r >= n && forall k: nat :: Pow2(k) >= n ==> Pow2(k) >= r
  }

  /** roundup_pow2 on an unsigned int; None where the shift by 32 is undefined. */
  function RoundupPow2(depth: nat): Option<nat> {
    var k := Fls((depth - 1) % U32);
    if k < 32 then Some(Pow2(k)) else None
  }

  lemma ShiftIsLeast(x: nat)
    ensures LeastPow2(Pow2(Fls(x)), x + 1)
  {
    FlsOfPow2(Fls(x));
    FlsIsLeast(x, Fls(x));
    forall k: nat | Pow2(k) >= x + 1
      ensures Pow2(k) >= Pow2(Fls(x))
    {
      FlsIsLeast(x, k);
      Pow2Monotone(Fls(x), k);
    }
  }

  /** Defined exactly for 1 <= depth <= 2^31, where it is the least power of two that holds depth. */
  lemma RoundupIsLeast(depth: nat)
    requires depth < U32
    ensures RoundupPow2(depth).Some? <==> 1 <= depth <= 0x8000_0000
    ensures RoundupPow2(depth).Some? ==> LeastPow2(RoundupPow2(depth).value, depth)
  {
    PowerValues();
    if depth == 0 {
      DivModUnique(-1, U32, -1, U32 - 1);
      FlsIsLeast(U32 - 1, 31);
    } else {
      ModSmall(depth - 1, U32);
      FlsIsLeast(depth - 1, 31);
      ShiftIsLeast(depth - 1);
    }
  }

  /** A bound that is a power of two survives the rounding. */
  lemma RoundupBounded(depth: nat, k: nat)
    requires 1 <= depth <= Pow2(k) && k <= 31
    ensures RoundupPow2(depth).Some? && depth <= RoundupPow2(depth).value <= Pow2(k)
    ensures LeastPow2(RoundupPow2(depth).value, depth)
  {
    PowerValues();
    Pow2Monotone(k, 31);
    RoundupIsLeast(depth);
  }

  /** The parameters get_sq_cq_entries looks at. */
  datatype Params = Params(clamp: bool, cqsize: bool, cqEntries: nat)

  function Clamped(n: nat, max: nat): nat {
    if n > max then max else n
  }

  /** When get_sq_cq_entries succeeds, said of the request. */
  ghost predicate Acceptable(entries: nat, p: Params) {
    && entries > 0 && (entries > KERN_MAX_ENTRIES ==> p.clamp)
    && (p.cqsize ==>
          && p.cqEntries > 0 && (p.cqEntries > KERN_MAX_CQ_ENTRIES ==> p.clamp)
          && forall k: nat :: Pow2(k) >= Clamped(p.cqEntries, KERN_MAX_CQ_ENTRIES) ==>
               Pow2(k) >= Clamped(entries, KERN_MAX_ENTRIES))
  }

  /** get_sq_cq_entries: 0 with both counts, or -EINVAL. */
  method GetSqCqEntries(entries: nat, p: Params) returns (ret: int, sq: nat, cq: nat)
    requires entries < U32 && p.cqEntries < U32
    ensures ret == 0 || ret == -EINVAL
    ensures ret == 0 <==> Acceptable(entries, p)
    ensures ret == 0 ==>
              && LeastPow2(sq, Clamped(entries, KERN_MAX_ENTRIES)) && IsPow2(cq)
              && sq <= KERN_MAX_ENTRIES && sq <= cq <= KERN_MAX_CQ_ENTRIES
              && (p.cqsize ==> LeastPow2(cq, Clamped(p.cqEntries, KERN_MAX_CQ_ENTRIES)))
              && (!p.cqsize ==> cq == 2 * sq)
  {
    hide Fls, Pow2, IsPow2, RoundupPow2;
    PowerValues();
    ret, sq, cq := -EINVAL, 0, 0;
    if entries == 0 {
      return;
    }
    var want := entries;
    if want > KERN_MAX_ENTRIES {
      if !p.clamp {
        return;
      }
      want := KERN_MAX_ENTRIES;
    }
    RoundupBounded(want, 15);
    sq := RoundupPow2(want).value;
    if p.cqsize {
      if p.cqEntries == 0 {
        return;
      }
      cq := p.cqEntries;
      if cq > KERN_MAX_CQ_ENTRIES {
        if !p.clamp {
          return;
        }
        cq := KERN_MAX_CQ_ENTRIES;
      }
      RoundupBounded(cq, 16);
      CompareRounded(want, cq);
      cq := RoundupPow2(cq).value;
      if cq < sq {
        return;
      }
    } else {
      cq := 2 * sq;
      DoublePow2(sq);
    }
    ret := 0;
  }

  lemma DoublePow2(n: nat)
    requires IsPow2(n)
    ensures IsPow2(2 * n)
  {
    var k := Fls(n) - 1;
    assert Pow2(k + 1) == 2 * Pow2(k);
    FlsOfPow2(k + 1);
  }

  /** The rounded sizes compare as the requests do: every power that holds b also holds a. */
  lemma CompareRounded(a: nat, b: nat)
    requires RoundupPow2(a).Some? && LeastPow2(RoundupPow2(a).value, a)
    requires RoundupPow2(b).Some? && LeastPow2(RoundupPow2(b).value, b)
    ensures RoundupPow2(b).value >= RoundupPow2(a).value <==>
              forall k: nat :: Pow2(k) >= b ==> Pow2(k) >= a
  {
    hide Fls, Pow2, RoundupPow2;
    var ra, rb := RoundupPow2(a).value, RoundupPow2(b).value;
    if rb >= ra {
      forall k: nat | Pow2(k) >= b
        ensures Pow2(k) >= a
      {
        assert Pow2(k) >= rb;
      }
    } else {
      assert rb == Pow2(Fls(rb) - 1) >= b;
    }
  }

  // ---------- memory ----------

  /** npages: the exponent of the page count; the quotient is cut to 32 bits by the cast to int. */
  function Npages(size: nat, pageSize: nat): nat
    requires size < U64 && 0 < pageSize
  {
    Fls(((size - 1) % U64) / pageSize % U32)
  }

  /** Pages that hold `size` bytes. */
  function PagesFor(size: nat, pageSize: nat): (n: nat)
    requires 0 < pageSize
    ensures n * pageSize >= size
    ensures n > 0 ==> (n - 1) * pageSize < size
  {
    if size == 0 then 0
    else
      var q := (size - 1) / pageSize;
      assert size - 1 == q * pageSize + (size - 1) % pageSize;
      assert (q + 1) * pageSize == q * pageSize + pageSize;
      q + 1
  }

  /** 1 << npages is the least power-of-two page count that holds the size exactly when the cast is harmless. */
  lemma NpagesIsLeast(size: nat, pageSize: nat)
    requires 0 < size < U64 && 0 < pageSize
    ensures LeastPow2(Pow2(Npages(size, pageSize)), PagesFor(size, pageSize)) <==> PagesFor(size, pageSize) <= U32
  {
    ModSmall(size - 1, U64);
    var q := (size - 1) / pageSize;
    if q < U32 {
      ModSmall(q, U32);
      ShiftIsLeast(q);
    } else {
      PowerValues();
      FlsIsLeast(q % U32, 32);
      Pow2Monotone(Npages(size, pageSize), 32);
    }
  }

  /** A header, and as many slots of 16 bytes as the completion ring has, in whole cache lines. */
  function CqRingBytes(cq: nat, cqe32: bool): (bytes: nat)
    ensures bytes % 64 == 0 && 0 <= bytes - (KRING_SIZE + 16 * (cq * Step(cqe32))) < 64
  {
    ((if cqe32 then 2 * CQE_SIZE else CQE_SIZE) * cq + KRING_SIZE + 63) / 64 * 64
  }

  /** Every slot of the entry array is 64 bytes wide. */
  function SqeBytes(sq: nat, sqe128: bool): (bytes: nat)
    ensures bytes == 64 * (sq * Step(sqe128))
  {
    (if sqe128 then SQE_SIZE + 64 else SQE_SIZE) * sq
  }

  lemma RingBytesBounded(sq: nat, cq: nat, cqe32: bool, sqe128: bool)
    requires 0 < sq <= KERN_MAX_ENTRIES && 0 < cq <= KERN_MAX_CQ_ENTRIES
    ensures 0 < SqeBytes(sq, sqe128) < U32 && 0 < CqRingBytes(cq, cqe32) < U32
  {
  }

  lemma PagesBounded(size: nat, pageSize: nat)
    requires 0 < size < U32 && 0 < pageSize
    ensures PagesFor(size, pageSize) <= U32
  {
    var n := PagesFor(size, pageSize);
    if n > U32 {
      MulAtLeast(pageSize, n - 1);
    }
  }

  /**
   * rings_size: whole pages, a least power of two of them for the completion ring with its header
   * and another for the submission entries.
   */
  method RingsSize(sq: nat, cq: nat, cqe32: bool, sqe128: bool, pageSize: nat)
    returns (bytes: nat, ghost cqPages: nat, ghost sqPages: nat)
    requires 0 < sq <= KERN_MAX_ENTRIES && 0 < cq <= KERN_MAX_CQ_ENTRIES && 0 < pageSize
    ensures bytes == (cqPages + sqPages) * pageSize
    ensures LeastPow2(cqPages, PagesFor(CqRingBytes(cq, cqe32), pageSize))
    ensures LeastPow2(sqPages, PagesFor(SqeBytes(sq, sqe128), pageSize))
    ensures bytes >= CqRingBytes(cq, cqe32) + SqeBytes(sq, sqe128)
    ensures bytes >= KRING_SIZE + 16 * (cq * Step(cqe32)) + 64 * (sq * Step(sqe128))
  {
    hide Fls, Pow2, LeastPow2, PagesFor, Npages;
    var cqSize := CQE_SIZE;
    if cqe32 {
      cqSize := cqSize + CQE_SIZE;
    }
    cqSize := cqSize * cq;
    cqSize := cqSize + KRING_SIZE;
    cqSize := (cqSize + 63) / 64 * 64;
    RingBytesBounded(sq, cq, cqe32, sqe128);
    var pages := Pow2(Npages(cqSize, pageSize));
    var sqSize := SQE_SIZE;
    if sqe128 {
      sqSize := sqSize + 64;
    }
    sqSize := sqSize * sq;
    cqPages, sqPages := pages, Pow2(Npages(sqSize, pageSize));
    pages := pages + Pow2(Npages(sqSize, pageSize));
    bytes := pages * pageSize;
    PagesBounded(cqSize, pageSize);
    PagesBounded(sqSize, pageSize);
    NpagesIsLeast(cqSize, pageSize);
    NpagesIsLeast(sqSize, pageSize);
    Covers(cqPages, cqSize, pageSize);
    Covers(sqPages, sqSize, pageSize);
    Distribute(cqPages, sqPages, pageSize);
  }

  lemma Covers(a: nat, size: nat, pageSize: nat)
    requires 0 < pageSize && LeastPow2(a, PagesFor(size, pageSize))
    ensures a * pageSize >= size
  {
    MulMonotone(PagesFor(size, pageSize), a, pageSize);
  }
}
