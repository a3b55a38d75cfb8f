// Byte streams cut into packets, and reads and writes of flat memory.
module Bytes {

  type Byte = bv8

  /** The stream the packets make up. */
  function Cat(packets: seq<seq<Byte>>): seq<Byte> {
    if |packets| == 0 then []
    else Cat(packets[..|packets| - 1]) + packets[|packets| - 1]
  }

  lemma {:induction false} CatAppend(a: seq<seq<Byte>>, b: seq<seq<Byte>>)
    ensures Cat(a + b) == Cat(a) + Cat(b)
  {
    if |b| == 0 {
      assert a + b == a;
    } else {
      CatAppend(a, b[..|b| - 1]);
      assert (a + b)[..|a + b| - 1] == a + b[..|b| - 1];
    }
  }

  lemma CatOne(p: seq<Byte>)
    ensures Cat([p]) == p
  {
    assert [p][..0] == [];
  }

  lemma CatSnoc(packets: seq<seq<Byte>>, start: nat, end: nat)
    requires start < end <= |packets|
    ensures Cat(packets[start..end]) == Cat(packets[start..end - 1]) + packets[end - 1]
  {
    var slice := packets[start..end];
    assert slice[..|slice| - 1] == packets[start..end - 1];
  }

  /** Bytes in packets[start..end). */
  function Span(packets: seq<seq<Byte>>, start: nat, end: nat): nat
    requires start <= end <= |packets|
    decreases end - start
  {
    if start == end then 0 else |packets[start]| + Span(packets, start + 1, end)
  }

  lemma {:induction false} SpanSplit(packets: seq<seq<Byte>>, a: nat, b: nat, c: nat)
    requires a <= b <= c <= |packets|
    ensures Span(packets, a, c) == Span(packets, a, b) + Span(packets, b, c)
    decreases b - a
  {
    if a < b {
      SpanSplit(packets, a + 1, b, c);
    }
  }

  /** Later packets do not change earlier spans. */
  lemma {:induction false} SpanPrefix(packets: seq<seq<Byte>>, more: seq<seq<Byte>>, a: nat, b: nat)
    requires a <= b <= |packets|
    ensures Span(packets + more, a, b) == Span(packets, a, b)
    decreases b - a
  {
    if a < b {
      SpanPrefix(packets, more, a + 1, b);
    }
  }

  /** The span of all packets is the length of the stream. */
  lemma {:induction false} SpanIsLength(packets: seq<seq<Byte>>)
    ensures Span(packets, 0, |packets|) == |Cat(packets)|
  {
    var n := |packets|;
    if n > 0 {
      SpanIsLength(packets[..n - 1]);
      SpanPrefix(packets[..n - 1], [packets[n - 1]], 0, n - 1);
      assert packets[..n - 1] + [packets[n - 1]] == packets;
      SpanSplit(packets, 0, n - 1, n);
    }
  }

  lemma {:induction false} SpanBound(packets: seq<seq<Byte>>, a: nat, b: nat, size: nat)
    requires a <= b <= |packets|
    requires forall i :: 0 <= i < |packets| ==> 0 < |packets[i]| <= size
    ensures b - a <= Span(packets, a, b) <= (b - a) * size
    decreases b - a
  {
    if a < b {
      SpanBound(packets, a + 1, b, size);
      assert (b - a) * size == size + (b - (a + 1)) * size;
    }
  }

  /** `len` bytes of memory at `addr`, or nothing when the range is not mapped. */
  function Block(mem: seq<Byte>, addr: int, len: nat): seq<Byte> {
    if 0 <= addr && addr + len <= |mem| then mem[addr..addr + len] else []
  }

  /** Memory with `data` stored at `addr`. */
  function Splice(mem: seq<Byte>, addr: int, data: seq<Byte>): (r: seq<Byte>)
    ensures |r| == |mem|
  {
    if 0 <= addr && addr + |data| <= |mem| then mem[..addr] + data + mem[addr + |data|..] else mem
  }

  lemma BlockOfSplice(mem: seq<Byte>, addr: int, data: seq<Byte>)
    requires 0 <= addr && addr + |data| <= |mem|
    ensures Block(Splice(mem, addr, data), addr, |data|) == data
  {
  }

  lemma BlockElsewhere(mem: seq<Byte>, addr: int, data: seq<Byte>, a: int, len: nat)
    requires 0 <= addr && addr + |data| <= |mem| && 0 <= a && a + len <= |mem|
    requires a + len <= addr || addr + |data| <= a
    ensures Block(Splice(mem, addr, data), a, len) == Block(mem, a, len)
  {
    var m := Splice(mem, addr, data);
    assert forall i :: a <= i < a + len ==> m[i] == mem[i];
  }
}
