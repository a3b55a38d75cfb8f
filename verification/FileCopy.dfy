// The asynchronous file copy of examples/io_uring-cp.c: what one operation's
// record, the kernel and the output file look like, and what one completion
// does to them. Records are never reused, so a record's index stands for its
// address; a freed record stays behind as a trace of what it wrote.
module FileCopy {
  import opened Bytes

  const QD := 64
  const BS := 32 * 1024
  const EAGAIN := -11

  /** struct io_data with the buffer allocated behind it; iovBase is an offset into that buffer. */
  datatype IoData = IoData(
    read: bool, firstOffset: nat, offset: int, firstLen: nat,
    iovBase: int, iovLen: int, buf: seq<Byte>, live: bool)

  /** What went wrong outside the program during the copy; shortDrain: a transfer of the final loop was short. */
  datatype Trouble = Trouble(
    allocFailed: bool, submitShort: bool, opFailed: bool, interrupted: bool, shortDrain: bool)

  /**
   * Records, prepared and submitted requests, the output file, how many completions are yet to
   * come, how many so far moved nothing, what went wrong, and, given beforehand and never changed,
   * what may go wrong and whether completions may move nothing.
   */
  datatype World = World(
    heap: seq<IoData>, sq: seq<nat>, inflight: multiset<nat>,
    output: map<int, Byte>, fuel: nat, stalls: nat, trouble: Trouble, may: Trouble, mayStall: bool)

  /** How many bytes of its chunk a record has put into the output file. */
  function Written(d: IoData): int {
    if d.read then 0 else d.iovBase
  }

  /** A record describes its chunk of the input and how far the transfer has come. */
  ghost predicate ChunkOk(d: IoData, input: seq<Byte>) {
    && 0 < d.firstLen && d.firstOffset + d.firstLen <= |input| && |d.buf| == d.firstLen
    && 0 <= d.iovBase <= d.firstLen
    && (d.live ==> d.iovLen == d.firstLen - d.iovBase > 0 && d.offset == d.firstOffset + d.iovBase)
    && (if d.read
        then d.buf[..d.iovBase] == input[d.firstOffset..d.firstOffset + d.iovBase]
        else d.buf == input[d.firstOffset..d.firstOffset + d.firstLen])
  }

  predicate Contains(d: IoData, o: int) {
    d.firstOffset <= o < d.firstOffset + d.firstLen
  }

  /** Of the chunk's bytes exactly the first `written` are in the output file. */
  ghost predicate Covered(d: IoData, output: map<int, Byte>, written: int) {
    forall o :: Contains(d, o) ==> (o in output <==> o < d.firstOffset + written)
  }

  ghost predicate InSome(heap: seq<IoData>, o: int) {
    exists i :: 0 <= i < |heap| && Contains(heap[i], o)
  }

  /** The chunks follow one another and together make up the input up to `end`. */
  ghost predicate Layout(heap: seq<IoData>, end: int) {
    && (forall i, j :: 0 <= i < j < |heap| ==> heap[i].firstOffset + heap[i].firstLen <= heap[j].firstOffset)
    && (forall i :: 0 <= i < |heap| ==> heap[i].firstOffset + heap[i].firstLen <= end)
    && (forall o :: 0 <= o < end ==> InSome(heap, o))
  }

  /** No byte in the output file is wrong, and none lies beyond what was queued. */
  ghost predicate OutputRight(output: map<int, Byte>, input: seq<Byte>, end: int) {
    0 <= end <= |input| && forall o :: o in output ==> 0 <= o < end && output[o] == input[o]
  }

  ghost predicate DataOk(heap: seq<IoData>, output: map<int, Byte>, input: seq<Byte>, end: int) {
    && Layout(heap, end)
    && OutputRight(output, input, end)
    && forall i :: 0 <= i < |heap| ==> ChunkOk(heap[i], input) && Covered(heap[i], output, Written(heap[i]))
  }

  // ---------- the kernel's transfer ----------

  function ReadInto(d: IoData, input: seq<Byte>, res: nat): IoData {
    if 0 <= d.iovBase && d.iovBase + res <= |d.buf| && 0 <= d.offset && d.offset + res <= |input|
    then d.(buf := d.buf[..d.iovBase] + input[d.offset..d.offset + res] + d.buf[d.iovBase + res..])
    else d
  }

  /** The byte of the record's buffer that belongs at file offset o. */
  function ByteFor(d: IoData, o: int): Byte {
    var k := d.iovBase + (o - d.offset);
    if 0 <= k < |d.buf| then d.buf[k] else 0
  }

  function WriteOut(d: IoData, output: map<int, Byte>, res: nat): map<int, Byte> {
    output + map o | d.offset <= o < d.offset + res :: ByteFor(d, o)
  }

  /** The operation of record p moves `res` bytes. */
  function Transfer(w: World, p: nat, res: nat, input: seq<Byte>): (w': World)
    requires p < |w.heap|
    ensures |w'.heap| == |w.heap|
  {
    var d := w.heap[p];
    if d.read then w.(heap := w.heap[p := ReadInto(d, input, res)])
    else w.(output := WriteOut(d, w.output, res))
  }

  // ---------- what the program does to a record ----------

  function Advanced(d: IoData, res: int): IoData {
    d.(iovBase := d.iovBase + res, iovLen := d.iovLen - res, offset := d.offset + res)
  }

  /** queue_write: the same record, now writing its chunk from the start. */
  function ToWrite(d: IoData): IoData {
    d.(read := false, offset := d.firstOffset, iovBase := 0, iovLen := d.firstLen)
  }

  /** The record given back to the allocator; what it wrote stays on record. */
  function Freed(d: IoData, res: int): IoData {
    Advanced(d, res).(live := false)
  }

  /** The record after a completion of `res` bytes: requeued when short, turned around or freed when full. */
  function Completed(d: IoData, res: int): IoData {
    if res != d.iovLen then Advanced(d, res)
    else if d.read then ToWrite(d)
    else Freed(d, res)
  }

  /** A completion of `res` bytes, transfer and bookkeeping together. */
  function AfterCompletion(w: World, p: nat, res: nat, input: seq<Byte>): World
    requires p < |w.heap|
  {
    var w1 := Transfer(w, p, res, input);
    w1.(heap := w1.heap[p := Completed(w1.heap[p], res)])
  }

  /** A completion in the final loop: the record is freed, however much it moved. */
  function AfterDrain(w: World, p: nat, res: nat, input: seq<Byte>): World
    requires p < |w.heap|
  {
    var w1 := Transfer(w, p, res, input);
    w1.(heap := w1.heap[p := Freed(w1.heap[p], res)])
  }

  lemma ReadKeepsChunk(d: IoData, input: seq<Byte>, res: nat)
    requires ChunkOk(d, input) && d.live && d.read && res <= d.iovLen
    ensures ChunkOk(Completed(ReadInto(d, input, res), res), input)
    ensures Written(Completed(ReadInto(d, input, res), res)) == 0
    ensures ChunkOk(Freed(ReadInto(d, input, res), res), input)
  {
    var d1 := ReadInto(d, input, res);
    var n := d.iovBase + res;
    assert d1.buf[..n] == input[d.firstOffset..d.firstOffset + n] by {
      assert d1.buf[..n] == d.buf[..d.iovBase] + input[d.offset..d.offset + res];
    }
    if n == d.firstLen {
      assert d1.buf == d1.buf[..n];
    }
  }

  lemma WriteKeepsChunk(d: IoData, input: seq<Byte>, res: nat)
    requires ChunkOk(d, input) && d.live && !d.read && res <= d.iovLen
    ensures ChunkOk(Completed(d, res), input) && Written(Completed(d, res)) == Written(d) + res
    ensures ChunkOk(Freed(d, res), input) && Written(Freed(d, res)) == Written(d) + res
  {
  }

  /** A write puts the next bytes of its chunk into the file, and they are the input's. */
  lemma WriteExtends(d: IoData, output: map<int, Byte>, input: seq<Byte>, end: int, res: nat)
    requires ChunkOk(d, input) && d.live && !d.read && res <= d.iovLen
    requires Covered(d, output, Written(d)) && OutputRight(output, input, end)
    requires d.firstOffset + d.firstLen <= end
    ensures Covered(d, WriteOut(d, output, res), Written(d) + res)
    ensures OutputRight(WriteOut(d, output, res), input, end)
  {
    forall o | d.offset <= o < d.offset + res ensures ByteFor(d, o) == input[o] {
    }
  }

  lemma WriteElsewhere(d: IoData, e: IoData, output: map<int, Byte>, res: nat)
    requires d.live ==> d.offset == d.firstOffset + d.iovBase
    requires d.live && 0 <= d.iovBase && d.iovBase + res <= d.firstLen
    requires d.firstOffset + d.firstLen <= e.firstOffset || e.firstOffset + e.firstLen <= d.firstOffset
    requires Covered(e, output, Written(e))
    ensures Covered(e, WriteOut(d, output, res), Written(e))
  {
  }

  lemma SameLayout(heap: seq<IoData>, p: nat, d: IoData, end: int)
    requires Layout(heap, end) && p < |heap|
    requires d.firstOffset == heap[p].firstOffset && d.firstLen == heap[p].firstLen
    ensures Layout(heap[p := d], end)
  {
    var heap' := heap[p := d];
    forall o | 0 <= o < end ensures InSome(heap', o) {
      assert InSome(heap, o);
      var i :| 0 <= i < |heap| && Contains(heap[i], o);
      assert Contains(heap'[i], o);
    }
  }

  /** Changing one record keeps the data right when that record and its bytes are right. */
  lemma UpdateKeepsData(
      heap: seq<IoData>, p: nat, d: IoData, output: map<int, Byte>, output': map<int, Byte>, input: seq<Byte>, end: int)
    requires DataOk(heap, output, input, end) && p < |heap|
    requires d.firstOffset == heap[p].firstOffset && d.firstLen == heap[p].firstLen
    requires ChunkOk(d, input) && Covered(d, output', Written(d)) && OutputRight(output', input, end)
    requires forall i :: 0 <= i < |heap| && i != p ==> Covered(heap[i], output', Written(heap[i]))
    ensures DataOk(heap[p := d], output', input, end)
  {
    hide ChunkOk, Covered, OutputRight;
    SameLayout(heap, p, d, end);
  }

  /** A transfer into or out of record p, followed by any honest bookkeeping of it, keeps the data right. */
  lemma TransferKeepsData(w: World, p: nat, res: nat, d': IoData, input: seq<Byte>, end: int)
    requires DataOk(w.heap, w.output, input, end) && p < |w.heap|
    requires w.heap[p].live && res <= w.heap[p].iovLen
    requires d'.firstOffset == w.heap[p].firstOffset && d'.firstLen == w.heap[p].firstLen
    requires ChunkOk(d', input)
    requires Written(d') == Written(w.heap[p]) + if w.heap[p].read then 0 else res
    ensures DataOk(w.heap[p := d'], Transfer(w, p, res, input).output, input, end)
  {
    var d := w.heap[p];
    var output' := Transfer(w, p, res, input).output;
    if !d.read {
      WriteExtends(d, w.output, input, end, res);
      forall i | 0 <= i < |w.heap| && i != p ensures Covered(w.heap[i], output', Written(w.heap[i])) {
        WriteElsewhere(d, w.heap[i], w.output, res);
      }
    }
    assert Covered(d', output', Written(d'));
    UpdateKeepsData(w.heap, p, d', w.output, output', input, end);
  }

  /** The record as the kernel leaves it, before the program looks at the completion. */
  function Transferred(d: IoData, input: seq<Byte>, res: nat): IoData {
    if d.read then ReadInto(d, input, res) else d
  }

  /** Every completion, short or full, keeps the data right; so does the final loop's. */
  lemma CompletionKeepsData(w: World, p: nat, res: nat, input: seq<Byte>, end: int)
    requires DataOk(w.heap, w.output, input, end) && p < |w.heap|
    requires w.heap[p].live && res <= w.heap[p].iovLen
    ensures var w' := AfterCompletion(w, p, res, input);
            && DataOk(w'.heap, w'.output, input, end)
            && w'.heap == w.heap[p := Completed(Transferred(w.heap[p], input, res), res)]
    ensures var w' := AfterDrain(w, p, res, input);
            && DataOk(w'.heap, w'.output, input, end)
            && w'.heap == w.heap[p := Freed(Transferred(w.heap[p], input, res), res)]
  {
    hide Layout, OutputRight;
    var d := w.heap[p];
    var d1 := Transferred(d, input, res);
    if d.read {
      ReadKeepsChunk(d, input, res);
    } else {
      WriteKeepsChunk(d, input, res);
    }
    TransferKeepsData(w, p, res, Completed(d1, res), input, end);
    TransferKeepsData(w, p, res, Freed(d1, res), input, end);
    assert w.heap[p := d1][p := Completed(d1, res)] == w.heap[p := Completed(d1, res)];
    assert w.heap[p := d1][p := Freed(d1, res)] == w.heap[p := Freed(d1, res)];
  }

  /** A freshly allocated record for the next chunk. */
  function NewRead(size: nat, offset: nat, garbage: seq<Byte>): IoData {
    IoData(true, offset, offset, size, 0, size, garbage, true)
  }

  lemma QueueReadKeepsData(heap: seq<IoData>, output: map<int, Byte>, input: seq<Byte>, end: nat, size: nat, garbage: seq<Byte>)
    requires DataOk(heap, output, input, end)
    requires 0 < size && end + size <= |input| && |garbage| == size
    ensures DataOk(heap + [NewRead(size, end, garbage)], output, input, end + size)
  {
    var d := NewRead(size, end, garbage);
    var heap' := heap + [d];
    NewReadIsOk(output, input, end, size, garbage);
    AppendKeepsLayout(heap, d, end);
  }

  lemma NewReadIsOk(output: map<int, Byte>, input: seq<Byte>, end: nat, size: nat, garbage: seq<Byte>)
    requires OutputRight(output, input, end)
    requires 0 < size && end + size <= |input| && |garbage| == size
    ensures var d := NewRead(size, end, garbage); ChunkOk(d, input) && Covered(d, output, 0)
    ensures OutputRight(output, input, end + size)
  {
    assert garbage[..0] == input[end..end];
  }

  lemma AppendKeepsLayout(heap: seq<IoData>, d: IoData, end: nat)
    requires Layout(heap, end) && d.firstOffset == end
    ensures Layout(heap + [d], end + d.firstLen)
  {
    var heap', size := heap + [d], d.firstLen;
    forall o | 0 <= o < end + size ensures InSome(heap', o) {
      if o < end {
        assert InSome(heap, o);
        var i :| 0 <= i < |heap| && Contains(heap[i], o);
        assert Contains(heap'[i], o);
      } else {
        assert Contains(heap'[|heap|], o);
      }
    }
  }

  // ---------- accounting ----------

  datatype Measure = Reads | Writes | ReadBytes | WorkLeft

  function Weight(m: Measure, d: IoData): int {
    if !d.live then 0
    else match m
      case Reads => if d.read then 1 else 0
      case Writes => if d.read then 0 else 1
      case ReadBytes => if d.read then d.firstLen else 0
      case WorkLeft => if d.read then d.iovLen + d.firstLen else d.iovLen
  }

  function Sum(m: Measure, heap: seq<IoData>): int {
    if |heap| == 0 then 0 else Sum(m, heap[..|heap| - 1]) + Weight(m, heap[|heap| - 1])
  }

  lemma SumAppend(m: Measure, heap: seq<IoData>, d: IoData)
    ensures Sum(m, heap + [d]) == Sum(m, heap) + Weight(m, d)
  {
    assert (heap + [d])[..|heap|] == heap;
  }

  lemma {:induction false} SumUpdate(m: Measure, heap: seq<IoData>, p: nat, d: IoData)
    requires p < |heap|
    ensures Sum(m, heap[p := d]) == Sum(m, heap) - Weight(m, heap[p]) + Weight(m, d)
    decreases |heap|
  {
    var n := |heap| - 1;
    if p == n {
      assert heap[p := d][..n] == heap[..n];
    } else {
      SumUpdate(m, heap[..n], p, d);
      assert heap[p := d][..n] == heap[..n][p := d];
    }
  }

  /** A sum of non-negative weights is zero only if every weight is. */
  lemma {:induction false} SumZero(m: Measure, heap: seq<IoData>)
    requires forall i :: 0 <= i < |heap| ==> Weight(m, heap[i]) >= 0
    ensures Sum(m, heap) >= 0
    ensures Sum(m, heap) == 0 ==> forall i :: 0 <= i < |heap| ==> Weight(m, heap[i]) == 0
    decreases |heap|
  {
    if |heap| > 0 {
      SumZero(m, heap[..|heap| - 1]);
      forall i | 0 <= i < |heap| && Sum(m, heap) == 0 ensures Weight(m, heap[i]) == 0 {
        assert i < |heap| - 1 ==> heap[..|heap| - 1][i] == heap[i];
      }
    }
  }

  /** A completion takes exactly the bytes it moved off the work that is left. */
  lemma CompletionDoesWork(d: IoData, input: seq<Byte>, res: nat)
    requires ChunkOk(d, input) && d.live && res <= d.iovLen
    ensures Weight(WorkLeft, Completed(Transferred(d, input, res), res)) == Weight(WorkLeft, d) - res
  {
  }

  // ---------- the result ----------

  /** The whole input is in the output file, and nothing else. */
  ghost predicate Complete(output: map<int, Byte>, input: seq<Byte>) {
    output == map o | 0 <= o < |input| :: input[o]
  }

  /** A chunk that was not written to its end is missing from the output. */
  lemma UnwrittenMeansIncomplete(heap: seq<IoData>, output: map<int, Byte>, input: seq<Byte>, end: int, i: nat)
    requires DataOk(heap, output, input, end) && i < |heap| && Written(heap[i]) != heap[i].firstLen
    ensures !Complete(output, input)
  {
    var last := heap[i].firstOffset + heap[i].firstLen - 1;
    assert ChunkOk(heap[i], input) && Covered(heap[i], output, Written(heap[i]));
    assert Contains(heap[i], last) && last !in output;
  }

  /** When everything was queued, the copy is complete exactly if every chunk was written to its end. */
  lemma CompleteIffAllWritten(heap: seq<IoData>, output: map<int, Byte>, input: seq<Byte>)
    requires DataOk(heap, output, input, |input|)
    ensures Complete(output, input) <==> forall i :: 0 <= i < |heap| ==> Written(heap[i]) == heap[i].firstLen
  {
    if forall i :: 0 <= i < |heap| ==> Written(heap[i]) == heap[i].firstLen {
      forall o | 0 <= o < |input| ensures o in output {
        assert InSome(heap, o);
        var i :| 0 <= i < |heap| && Contains(heap[i], o);
      }
    }
    if i :| 0 <= i < |heap| && Written(heap[i]) != heap[i].firstLen {
      UnwrittenMeansIncomplete(heap, output, input, |input|, i);
    }
  }
}
