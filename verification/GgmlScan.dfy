/** How the scan over the tensors of a legacy file moves: byte counts are wrapped to 64 bits and may be
    negative, so a step can go nowhere or back.
 */
module GgmlScan {
  import opened Bytes
  import opened GgmlFile
  import opened GgmlRoundTrip
  import opened Wrappers
  import C = Counting

  // ---------- one step ----------

  /** A header is read only where the data reaches: not more than its length before the start. */
  lemma HeaderInside(data: seq<Byte>, o: int, padded: bool)
    requires ReadTensor(data, o, padded).Ok?
    ensures -|data| <= o && (o >= 0 ==> o + 12 <= |data|)
  {
    hide Unpack, ByteCount, QuantSize;
    assert |Slice(data, o, o + 12)| == 12;
  }

  /** Where the data of a tensor starts, and how far that can be. */
  lemma StartIs(data: seq<Byte>, o: int, padded: bool)
    requires ReadTensor(data, o, padded).Ok?
    ensures U32s(data, o, 3).Ok?
    ensures var v, t := U32s(data, o, 3).value, ReadTensor(data, o, padded).value.0;
            var end := o + 12 + 4 * v[0] + v[1];
            && v[0] == |t.dims| <= 4 && v[1] < MAX_TEXT && v[2] == t.dtype && QuantSize(t.dtype).Some?
            && t.start == end + (if padded then Padding(end) else 0)
            && t.len == ByteCount(t.dims, QuantSize(t.dtype).value)
  {
    hide U32s, ByteCount, QuantSize, Padding;
  }

  lemma CountBounds(dims: seq<nat>, quant: (nat, nat))
    requires quant.0 > 0
    ensures -INT64_LIMIT <= ByteCount(dims, quant) < INT64_LIMIT
  {
    hide Elements;
    var x := Wrap64(Elements(dims) * quant.1);
    Shrinks(x, quant.0);
  }

  lemma Shrinks(x: int, d: nat)
    requires d > 0 && -INT64_LIMIT <= x < INT64_LIMIT
    ensures -INT64_LIMIT <= x / d < INT64_LIMIT
  {
    var q, r := x / d, x % d;
    assert x == d * q + r && 0 <= r < d;
    Between(d, q, r);
  }

  /** A quotient is no further from zero than what is divided. */
  lemma Between(d: int, q: int, r: int)
    requires d > 0 && 0 <= r < d
    ensures q >= 0 ==> q <= d * q + r
    ensures q < 0 ==> d * q + r <= q
  {
    if q >= 0 {
      Product(d - 1, q);
    } else {
      Product(d - 1, -q - 1);
      assert d * q == q - (d - 1) * (-q - 1) - (d - 1);
    }
  }

  lemma Product(x: nat, y: nat)
    ensures x * y >= 0
  {
  }

  /** A step goes on by at least twelve bytes exactly when what follows them in the header and the wrapped
      byte count together are not negative and do not leave the range of offsets.
   */
  lemma StepAdvances(data: seq<Byte>, o: nat, padded: bool)
    requires ReadTensor(data, o, padded).Ok? && |data| < INT64_LIMIT / 2
    ensures U32s(data, o, 3).Ok? && QuantSize(U32s(data, o, 3).value[2]).Some?
    ensures var (t, next) := ReadTensor(data, o, padded).value;
            var v := U32s(data, o, 3).value;
            var pad := if padded then Padding(o + 12 + 4 * v[0] + v[1]) else 0;
            var count := ByteCount(t.dims, QuantSize(v[2]).value);
      next >= o + 12 <==> 4 * v[0] + v[1] + pad + count >= 0 && o + 12 + 4 * v[0] + v[1] + pad + count < INT64_LIMIT
  {
    hide ByteCount, QuantSize, U32s, ReadTensor, Padding;
    HeaderInside(data, o, padded);
    StartIs(data, o, padded);
    var t := ReadTensor(data, o, padded).value.0;
    CountBounds(t.dims, QuantSize(t.dtype).value);
  }

  // ---------- the whole scan ----------

  /** The offset after `k` passes, if the loop gets so far. */
  function OffsetAfter(data: seq<Byte>, o: int, padded: bool, k: nat): Option<int>
    decreases k
  {
    if k == 0 then Some(o)
    else if o >= |data| then None
    else
      var t := ReadTensor(data, o, padded);
      if t.Err? then None else OffsetAfter(data, t.value.1, padded, k - 1)
  }

  predicate Unending(r: Result<(seq<TensorInfo>, int), Error>) {
    r == Err(Unfinished)
  }

  /** The loop is still running after `k` passes exactly when it has an offset then, inside the data. */
  lemma {:induction false} StillRunning(data: seq<Byte>, o: int, padded: bool, k: nat)
    ensures Unending(ReadTensors(data, o, padded, k))
       <==> OffsetAfter(data, o, padded, k).Some? && OffsetAfter(data, o, padded, k).value < |data|
    decreases k
  {
    hide ReadTensor;
    ReadTensorError(data, o, padded);
    if o < |data| && k > 0 && ReadTensor(data, o, padded).Ok? {
      StillRunning(data, ReadTensor(data, o, padded).value.1, padded, k - 1);
    }
  }

  lemma ReadTensorError(data: seq<Byte>, o: int, padded: bool)
    ensures ReadTensor(data, o, padded) != Err(Unfinished)
  {
    hide QuantSize, ByteCount;
    UnpackError(Slice(data, o, o + 12), 3);
    if U32s(data, o, 3).Ok? {
      var n := U32s(data, o, 3).value[0];
      UnpackError(Slice(data, o + 12, o + 12 + 4 * n), n);
    }
  }

  lemma UnpackError(s: seq<Byte>, n: nat)
    ensures Unpack(s, n) != Err(Unfinished)
  {
  }

  /** Passes beyond those needed change nothing. */
  lemma {:induction false} MorePasses(data: seq<Byte>, o: int, padded: bool, k: nat, more: nat)
    requires !Unending(ReadTensors(data, o, padded, k)) && more >= k
    ensures ReadTensors(data, o, padded, more) == ReadTensors(data, o, padded, k)
    decreases k
  {
    hide ReadTensor;
    if o < |data| && k > 0 && ReadTensor(data, o, padded).Ok? {
      MorePasses(data, ReadTensor(data, o, padded).value.1, padded, k - 1, more - 1);
    }
  }

  lemma {:induction false} OffsetsCompose(data: seq<Byte>, o: int, padded: bool, i: nat, j: nat)
    ensures OffsetAfter(data, o, padded, i + j)
         == if OffsetAfter(data, o, padded, i).None? then None
            else OffsetAfter(data, OffsetAfter(data, o, padded, i).value, padded, j)
    decreases i
  {
    hide ReadTensor;
    if i > 0 && o < |data| && ReadTensor(data, o, padded).Ok? {
      OffsetsCompose(data, ReadTensor(data, o, padded).value.1, padded, i - 1, j);
    }
  }

  ghost predicate Revisits(data: seq<Byte>, o: int, padded: bool, i: nat, j: nat) {
    && i < j && OffsetAfter(data, o, padded, i).Some? && OffsetAfter(data, o, padded, i).value < |data|
    && OffsetAfter(data, o, padded, i) == OffsetAfter(data, o, padded, j)
  }

  /** Once back at an offset the loop runs for ever. */
  lemma {:induction false} CycleRuns(data: seq<Byte>, o: int, padded: bool, period: nat, k: nat)
    requires period > 0 && o < |data| && OffsetAfter(data, o, padded, period) == Some(o)
    ensures Unending(ReadTensors(data, o, padded, k))
    decreases k
  {
    hide OffsetAfter, ReadTensors;
    if k > period {
      CycleRuns(data, o, padded, period, k - period);
      StillRunning(data, o, padded, k - period);
      OffsetsCompose(data, o, padded, period, k - period);
      StillRunning(data, o, padded, k);
    } else {
      StillRunning(data, o, padded, period);
      if !Unending(ReadTensors(data, o, padded, k)) {
        MorePasses(data, o, padded, k, period);
      }
    }
  }

  lemma RevisitRuns(data: seq<Byte>, o: int, padded: bool, i: nat, j: nat, k: nat)
    requires Revisits(data, o, padded, i, j)
    ensures Unending(ReadTensors(data, o, padded, k))
  {
    hide OffsetAfter, ReadTensors;
    var back := OffsetAfter(data, o, padded, i).value;
    OffsetsCompose(data, o, padded, i, j - i);
    CycleRuns(data, back, padded, j - i, k);
    StillRunning(data, back, padded, k);
    OffsetsCompose(data, o, padded, i, k);
    StillRunning(data, o, padded, i + k);
    if !Unending(ReadTensors(data, o, padded, k)) {
      MorePasses(data, o, padded, k, i + k);
    }
  }

  // ---------- a loop that does not end has come back ----------

  /** Among more numbers than there are values two are equal. */
  lemma Pigeonhole(s: seq<nat>, n: nat) returns (i: nat, j: nat)
    requires |s| > n && forall k :: 0 <= k < |s| ==> s[k] < n
    ensures i < j < |s| && s[i] == s[j]
  {
    if forall a, b :: 0 <= a < b < |s| ==> s[a] != s[b] {
      C.DistinctCount(s);
      C.Smaller(C.Elements(s), C.Below(n));
    }
    i, j :| 0 <= i < j < |s| && s[i] == s[j];
  }

  /** Offsets stay in the range of 64-bit numbers. */
  lemma {:induction false} OffsetInRange(data: seq<Byte>, o: int, padded: bool, k: nat)
    requires o >= -INT64_LIMIT && OffsetAfter(data, o, padded, k).Some?
    ensures OffsetAfter(data, o, padded, k).value >= -INT64_LIMIT
    decreases k
  {
    hide ReadTensor;
    if k > 0 {
      NextInRange(data, o, padded);
      OffsetInRange(data, ReadTensor(data, o, padded).value.1, padded, k - 1);
    }
  }

  lemma NextInRange(data: seq<Byte>, o: int, padded: bool)
    ensures ReadTensor(data, o, padded).Ok? ==> ReadTensor(data, o, padded).value.1 >= -INT64_LIMIT
  {
    hide ByteCount, QuantSize, U32s;
  }

  lemma LongRunRevisits(data: seq<Byte>, o: int, padded: bool) returns (i: nat, j: nat)
    requires o >= -INT64_LIMIT && Unending(ReadTensors(data, o, padded, |data| + INT64_LIMIT))
    ensures Revisits(data, o, padded, i, j)
  {
    hide OffsetAfter, ReadTensors;
    var n := |data| + INT64_LIMIT;
    forall k: nat | k <= n
      ensures OffsetAfter(data, o, padded, k).Some? && -INT64_LIMIT <= OffsetAfter(data, o, padded, k).value < |data|
    {
      if !Unending(ReadTensors(data, o, padded, k)) {
        MorePasses(data, o, padded, k, n);
      }
      StillRunning(data, o, padded, k);
      OffsetInRange(data, o, padded, k);
    }
    var seen := seq(n + 1, k requires 0 <= k <= n => (OffsetAfter(data, o, padded, k).value + INT64_LIMIT) as nat);
    i, j := Pigeonhole(seen, n);
    assert seen[i] == seen[j];
  }

  /** The loop ends after some number of passes. */
  ghost predicate Ends(data: seq<Byte>, o: int, padded: bool) {
    exists k: nat :: !Unending(ReadTensors(data, o, padded, k))
  }

  ghost predicate ComesBack(data: seq<Byte>, o: int, padded: bool) {
    exists i: nat, j: nat :: Revisits(data, o, padded, i, j)
  }

  /** Whatever the file, the loop ends if and only if it never comes back to an offset. */
  lemma ScanEnds(data: seq<Byte>, o: int, padded: bool)
    requires o >= -INT64_LIMIT
    ensures Ends(data, o, padded) <==> !ComesBack(data, o, padded)
  {
    hide ReadTensors, Revisits, Unending;
    if ComesBack(data, o, padded) {
      var i: nat, j: nat :| Revisits(data, o, padded, i, j);
      forall k: nat ensures Unending(ReadTensors(data, o, padded, k)) {
        RevisitRuns(data, o, padded, i, j, k);
      }
    } else {
      var most: nat := |data| + INT64_LIMIT;
      if Unending(ReadTensors(data, o, padded, most)) {
        var i, j := LongRunRevisits(data, o, padded);
        assert false;
      }
      assert !Unending(ReadTensors(data, o, padded, most));
    }
  }

  // ---------- files that go forward ----------

  /** No byte count wrapped below zero, and no range ends beyond the largest offset. */
  predicate Forward(t: TensorInfo) {
    t.len >= 0 && t.start + t.len < INT64_LIMIT
  }

  /** Every header met in the first `k` passes goes forward. */
  ghost predicate ForwardScan(data: seq<Byte>, o: int, padded: bool, k: nat)
    decreases k
  {
    k > 0 && o < |data| && ReadTensor(data, o, padded).Ok? ==>
      var (t, next) := ReadTensor(data, o, padded).value;
      Forward(t) && ForwardScan(data, next, padded, k - 1)
  }

  /** A scan that goes forward needs no more passes than headers fit. */
  lemma {:induction false} ForwardEnds(data: seq<Byte>, o: nat, padded: bool, k: nat)
    requires ForwardScan(data, o, padded, k) && 12 * k >= |data| - o
    ensures !Unending(ReadTensors(data, o, padded, k))
    decreases k
  {
    hide ReadTensor;
    ReadTensorError(data, o, padded);
    if o < |data| && ReadTensor(data, o, padded).Ok? {
      StepFacts(data, o, padded);
      ForwardEnds(data, ReadTensor(data, o, padded).value.1, padded, k - 1);
    }
  }

  lemma StepFacts(data: seq<Byte>, o: int, padded: bool)
    requires ReadTensor(data, o, padded).Ok?
    ensures var (t, next) := ReadTensor(data, o, padded).value;
      && t.start >= o + 12 && (padded ==> t.start % 32 == 0) && next == Wrap64(t.start + t.len)
  {
    hide U32s, ByteCount, QuantSize;
  }

  /** The ranges have their ends behind their starts, and each lies behind the one before with room for a
      header.
   */
  predicate Ordered(ts: seq<TensorInfo>) {
    && (forall i :: 0 <= i < |ts| ==> ts[i].len >= 0)
    && forall i, j :: 0 <= i < j < |ts| ==> ts[i].start + ts[i].len + 12 <= ts[j].start
  }

  predicate AllForward(ts: seq<TensorInfo>) {
    forall i :: 0 <= i < |ts| ==> Forward(ts[i])
  }

  /** In any file whose scan ends, the ranges are in order and disjoint if and only if no wrapped byte count
      was negative and no range ended beyond the largest offset; where the format pads they are aligned in
      any case.
   */
  lemma {:induction false} ScannedRanges(data: seq<Byte>, o: int, padded: bool, k: nat)
    requires |data| < INT64_LIMIT / 2 && ReadTensors(data, o, padded, k).Ok?
    ensures var (ts, end) := ReadTensors(data, o, padded, k).value;
      && (Ordered(ts) <==> AllForward(ts))
      && (padded ==> forall i :: 0 <= i < |ts| ==> ts[i].start % 32 == 0)
      && end >= |data| && (AllForward(ts) ==> end == if ts == [] then o else ts[|ts| - 1].start + ts[|ts| - 1].len)
      && (ts != [] ==> o + 12 <= ts[0].start <= o + 12 + 16 + MAX_TEXT + 32)
    decreases k
  {
    hide ReadTensor, Ordered, AllForward, Forward;
    if o < |data| {
      var (t, next) := ReadTensor(data, o, padded).value;
      var (rest, end) := ReadTensors(data, next, padded, k - 1).value;
      StepFacts(data, o, padded);
      StartClose(data, o, padded);
      HeaderInside(data, o, padded);
      ScannedRanges(data, next, padded, k - 1);
      RangesCons(t, next, rest, end, |data|);
      LastEnd(t, next, rest, end);
    } else {
      NoRangesAtAll();
    }
  }

  lemma LastEnd(t: TensorInfo, next: int, rest: seq<TensorInfo>, end: int)
    requires next == Wrap64(t.start + t.len) && t.start >= -INT64_LIMIT
    requires AllForward(rest) ==> end == if rest == [] then next else rest[|rest| - 1].start + rest[|rest| - 1].len
    ensures var ts := [t] + rest; AllForward(ts) ==> end == ts[|ts| - 1].start + ts[|ts| - 1].len
  {
    hide AllForward, Wrap64;
    ForwardTail(t, rest);
  }

  lemma NoRangesAtAll()
    ensures Ordered([]) && AllForward([])
  {
  }

  lemma StartClose(data: seq<Byte>, o: int, padded: bool)
    requires ReadTensor(data, o, padded).Ok?
    ensures var t := ReadTensor(data, o, padded).value.0;
      t.start <= o + 12 + 16 + MAX_TEXT + 32 && -INT64_LIMIT <= t.len < INT64_LIMIT
  {
    hide ByteCount, QuantSize, U32s, ReadTensor;
    StartIs(data, o, padded);
    var t := ReadTensor(data, o, padded).value.0;
    CountBounds(t.dims, QuantSize(t.dtype).value);
  }

  lemma RangesCons(t: TensorInfo, next: int, rest: seq<TensorInfo>, end: int, size: nat)
    requires next == Wrap64(t.start + t.len) && -INT64_LIMIT <= t.len < INT64_LIMIT
    requires t.start < INT64_LIMIT / 2 + 12 + 16 + MAX_TEXT + 32
    requires rest == [] ==> next == end >= size
    requires rest != [] ==> next + 12 <= rest[0].start <= next + 12 + 16 + MAX_TEXT + 32
    requires Ordered(rest) <==> AllForward(rest)
    ensures Ordered([t] + rest) <==> AllForward([t] + rest)
  {
    hide Wrap64;
    var ts := [t] + rest;
    OrderedTail(t, rest);
    assert AllForward(ts) <==> Forward(t) && AllForward(rest) by { ForwardTail(t, rest); }
    WrapFacts(t.start + t.len);
    if Forward(t) && Ordered(rest) {
      OrderedCons(t, rest);
    }
    if Ordered(ts) {
      assert ts[0] == t;
      if rest != [] {
        assert ts[1] == rest[0];
      }
    }
  }

  lemma WrapFacts(x: int)
    requires x < 2 * INT64_LIMIT
    ensures Wrap64(x) <= x || x < -INT64_LIMIT
    ensures x >= INT64_LIMIT ==> Wrap64(x) == x - 2 * INT64_LIMIT
    ensures -INT64_LIMIT <= x < INT64_LIMIT ==> Wrap64(x) == x
  {
  }

  lemma ForwardTail(t: TensorInfo, rest: seq<TensorInfo>)
    ensures AllForward([t] + rest) <==> Forward(t) && AllForward(rest)
  {
    hide Forward;
    var ts := [t] + rest;
    if AllForward(ts) {
      assert Forward(ts[0]);
      forall i | 0 <= i < |rest| ensures Forward(rest[i]) {
        assert ts[i + 1] == rest[i];
      }
    }
  }

  lemma OrderedTail(t: TensorInfo, rest: seq<TensorInfo>)
    ensures Ordered([t] + rest) ==> t.len >= 0 && Ordered(rest)
  {
    var ts := [t] + rest;
    if Ordered(ts) {
      assert ts[0] == t;
      forall i | 0 <= i < |rest| ensures rest[i].len >= 0 {
        assert ts[i + 1] == rest[i];
      }
      forall i, j | 0 <= i < j < |rest| ensures rest[i].start + rest[i].len + 12 <= rest[j].start {
        assert ts[i + 1] == rest[i] && ts[j + 1] == rest[j];
      }
    }
  }

  lemma OrderedCons(t: TensorInfo, rest: seq<TensorInfo>)
    requires Ordered(rest) && t.len >= 0 && (rest != [] ==> t.start + t.len + 12 <= rest[0].start)
    ensures Ordered([t] + rest)
  {
    var ts := [t] + rest;
    forall i, j | 0 <= i < j < |ts| ensures ts[i].start + ts[i].len + 12 <= ts[j].start {
      if i == 0 {
        assert ts[j] == rest[j - 1] && rest[0].len >= 0;
        assert j > 1 ==> rest[0].start + rest[0].len + 12 <= rest[j - 1].start;
      } else {
        assert ts[i] == rest[i - 1] && ts[j] == rest[j - 1];
      }
    }
  }

  // ---------- headers that do not go forward ----------

  const WRAPPING_DIMS: seq<nat> := [2147483645, 2147483651]

  /** Two extents whose byte count wraps to -36. */
  lemma WrappingCount()
    ensures ByteCount(WRAPPING_DIMS, (1, 4)) == -36
  {
    var dims := WRAPPING_DIMS;
    assert dims[..1] == [2147483645] && dims[..1][..0] == [];
    assert Elements([]) == 1 && Elements(dims[..1]) == Wrap64(1 * 2147483645) == 2147483645;
    assert Elements(dims) == Wrap64(2147483645 * 2147483651);
  }

  /** An unpadded header with these extents, and a name of `n` bytes. */
  function WrappingHeader(name: seq<Byte>): seq<Byte> {
    AllBytes32([2, |name|, 0] + WRAPPING_DIMS) + name
  }

  lemma WrappingRead(data: seq<Byte>, o: nat, name: seq<Byte>)
    requires Holds(data, o, WrappingHeader(name)) && |name| < MAX_TEXT && |data| < INT64_LIMIT / 2
    ensures ReadTensor(data, o, false) == Ok((TensorInfo(name, WRAPPING_DIMS, 0, o + 20 + |name|, -36), o + |name| - 16))
    ensures o < |data|
  {
    hide Holds, U32s, Slice, Elements, AllBytes32;
    var first: seq<nat> := [2, |name|, 0];
    HoldsSplit(data, o, AllBytes32(first + WRAPPING_DIMS), name);
    BytesConcat(first, WRAPPING_DIMS);
    HoldsSplit(data, o, AllBytes32(first), AllBytes32(WRAPPING_DIMS));
    WordsRead(data, o, first);
    WordsRead(data, o + 12, WRAPPING_DIMS);
    SliceHeld(data, o + 20, name);
    HoldsInside(data, o + 20, name);
    WrappingCount();
    WrapFacts(o + |name| - 16);
  }

  lemma HoldsInside(data: seq<Byte>, o: nat, w: seq<Byte>)
    requires Holds(data, o, w)
    ensures o + |w| <= |data|
  {
  }

  /** With a name of sixteen bytes the step goes nowhere, and the loop never ends. */
  lemma HeaderLoops(data: seq<Byte>, o: nat, name: seq<Byte>, k: nat)
    requires Holds(data, o, WrappingHeader(name)) && |name| == 16 && |data| < INT64_LIMIT / 2
    ensures ReadTensor(data, o, false).Ok? && ReadTensor(data, o, false).value.1 == o
    ensures Unending(ReadTensors(data, o, false, k))
  {
    hide Holds, ReadTensor, ReadTensors, WrappingHeader;
    WrappingRead(data, o, name);
    HoldsInside(data, o, WrappingHeader(name));
    assert OffsetAfter(data, o, false, 1) == Some(o) by { assert OffsetAfter(data, o, false, 0) == Some(o); }
    CycleRuns(data, o, false, 1, k);
  }

  /** The name of the first header below: the header of a second tensor and its data. */
  function InnerName(): seq<Byte> {
    AllBytes32([1, 0, 0] + [5]) + ZeroBytes(20)
  }

  /** A file's tensors of 56 bytes that load, the second starting before the first. */
  lemma OutOfOrder()
    ensures var first := TensorInfo(InnerName(), WRAPPING_DIMS, 0, 56, -36);
            var second := TensorInfo([], [5], 0, 36, 20);
      ReadTensors(WrappingHeader(InnerName()), 0, false, 2) == Ok(([first, second], 56))
      && second.start < first.start && !Ordered([first, second])
  {
    hide AllBytes32, Holds, ReadTensor, ReadTensors;
    var data := WrappingHeader(InnerName());
    var first, second := TensorInfo(InnerName(), WRAPPING_DIMS, 0, 56, -36), TensorInfo([], [5], 0, 36, 20);
    assert |data| == 56;
    assert Holds(data, 0, data) by { HoldsAll(data); }
    WrappingRead(data, 0, InnerName());
    assert Holds(data, 20, InnerName()) by { HoldsSplit(data, 0, AllBytes32([2, |InnerName()|, 0] + WRAPPING_DIMS), InnerName()); }
    InnerRead(data);
    ReadsOn(data, 56, false, 0);
    ReadsOn(data, 20, false, 1);
    assert [second] + [] == [second];
    ReadsOn(data, 0, false, 2);
    assert [first] + [second] == [first, second];
    var ts := [first, second];
    assert ts[0].len < 0;
  }

  lemma ReadsOn(data: seq<Byte>, o: int, padded: bool, passes: nat)
    ensures o >= |data| ==> ReadTensors(data, o, padded, passes) == Ok(([], o))
    ensures o < |data| && passes > 0 && ReadTensor(data, o, padded).Ok? ==>
              var (t, next) := ReadTensor(data, o, padded).value;
              var rest := ReadTensors(data, next, padded, passes - 1);
              rest.Ok? ==> ReadTensors(data, o, padded, passes) == Ok(([t] + rest.value.0, rest.value.1))
  {
    hide ReadTensor;
  }

  lemma HoldsAll(data: seq<Byte>)
    ensures Holds(data, 0, data)
  {
  }

  lemma InnerRead(data: seq<Byte>)
    requires Holds(data, 20, InnerName()) && |data| == 56
    ensures ReadTensor(data, 20, false) == Ok((TensorInfo([], [5], 0, 36, 20), 56))
  {
    hide Holds, U32s, AllBytes32, ByteCount, Slice;
    var words: seq<nat>, dims: seq<nat> := [1, 0, 0], [5];
    HoldsSplit(data, 20, AllBytes32(words + dims), ZeroBytes(20));
    BytesConcat(words, dims);
    HoldsSplit(data, 20, AllBytes32(words), AllBytes32(dims));
    WordsRead(data, 20, words);
    WordsRead(data, 32, dims);
    FiveFloats();
  }

  lemma FiveFloats()
    ensures ByteCount([5], (1, 4)) == 20
  {
    var dims: seq<nat> := [5];
    assert dims[..0] == [] && Elements([]) == 1;
    assert Elements(dims) == Wrap64(1 * 5);
  }
}
