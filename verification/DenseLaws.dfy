/** What the operations on W mean, index by index: the reference that the operations on the factors are compared
    with is itself tied to positions, orders and sums.
 */
module DenseLaws {
  import opened LoraChain
  import opened LoraCombine
  import opened LoraIndexing
  import opened LoraJoin
  import opened LoraShaping
  import opened LoraSplit
  import opened LoraTensor
  import opened RowMajor
  import opened Tensors
  import opened Wrappers

  // ---------- slices ----------

  /** The position is within the bounds; a negative bound counts from the end. */
  predicate Within(e: Entry, n: nat, p: nat)
    requires e.Slice?
  {
    && p < n
    && (e.lo.Some? ==> if e.lo.value < 0 then p >= n + e.lo.value else p >= e.lo.value)
    && (e.hi.Some? ==> if e.hi.value < 0 then p < n + e.hi.value else p < e.hi.value)
  }

  /** The least position the lower bound allows. */
  function Lowest(e: Entry, n: nat): nat
    requires e.Slice?
  {
    if e.lo.None? then 0
    else if e.lo.value >= 0 then e.lo.value
    else if n + e.lo.value >= 0 then n + e.lo.value
    else 0
  }

  /** A slice selects every `step`-th position within its bounds, from the least on, in ascending order. */
  lemma SlicePositions(e: Entry, n: nat, p: nat)
    requires EntryOk(e, n) && e.Slice?
    ensures (exists x: nat :: x < Length(e, n) && Source(e, n, x) == p) <==>
              Within(e, n, p) && p >= Lowest(e, n) && (p - Lowest(e, n)) % e.step == 0
    ensures forall x: nat, y: nat :: x < y ==> Source(e, n, x) < Source(e, n, y)
  {
    hide Within, Lowest, Length, Source;
    forall x: nat, y: nat | x < y ensures Source(e, n, x) < Source(e, n, y) {
      SourcesGrow(e, n, x, y);
    }
    forall x: nat | x < Length(e, n) && Source(e, n, x) == p
      ensures Within(e, n, p) && p >= Lowest(e, n) && (p - Lowest(e, n)) % e.step == 0
    {
      SelectedWithin(e, n, x);
    }
    if Within(e, n, p) && p >= Lowest(e, n) && (p - Lowest(e, n)) % e.step == 0 {
      SelectedFrom(e, n, p);
    }
  }

  lemma SourcesGrow(e: Entry, n: nat, x: nat, y: nat)
    requires EntryOk(e, n) && e.Slice? && x < y
    ensures Source(e, n, x) < Source(e, n, y)
  {
    StepsGrow(x, y, e.step);
  }

  lemma SelectedWithin(e: Entry, n: nat, x: nat)
    requires EntryOk(e, n) && e.Slice? && x < Length(e, n)
    ensures var p := Source(e, n, x); Within(e, n, p) && p >= Lowest(e, n) && (p - Lowest(e, n)) % e.step == 0
  {
    var end := if e.hi.None? then n else Clamped(e.hi.value, n);
    SourceIn(e, n, x);
    StepsWithin(end - First(e, n) - 1, e.step, x);
    Stepped(Source(e, n, x), First(e, n), e.step, x);
  }

  lemma SelectedFrom(e: Entry, n: nat, p: nat)
    requires EntryOk(e, n) && e.Slice? && Within(e, n, p) && p >= Lowest(e, n) && (p - Lowest(e, n)) % e.step == 0
    ensures var x := (p - Lowest(e, n)) / e.step; x >= 0 && x < Length(e, n) && Source(e, n, x) == p
  {
    var end := if e.hi.None? then n else Clamped(e.hi.value, n);
    assert First(e, n) == Lowest(e, n) && p < end;
    StepsUnder(p - First(e, n), end - First(e, n) - 1, e.step);
  }

  lemma StepsGrow(x: nat, y: nat, step: nat)
    requires x < y && step > 0
    ensures x * step < y * step
  {
  }

  lemma Stepped(p: nat, first: nat, step: nat, x: nat)
    requires step > 0 && p == first + x * step
    ensures (p - first) % step == 0
  {
    Quotient(x, step, 0);
  }

  lemma StepsUnder(d: nat, last: nat, step: nat)
    requires step > 0 && d <= last && d % step == 0
    ensures d / step <= last / step && d / step * step == d
  {
    var q, r := d / step, last / step;
    assert d == q * step + d % step && last == r * step + last % step;
    assert (r + 1) * step == r * step + step;
    if q > r {
      MulMono(r + 1, q, step);
    }
  }

  /** A position is accepted from both ends of the axis, a slice with any step forward. */
  lemma EntriesAccepted(e: Entry, n: nat)
    ensures e.Pos? ==> (EntryOk(e, n) <==> if e.i < 0 then -e.i <= n else e.i < n)
    ensures e.Slice? ==> (EntryOk(e, n) <==> e.step >= 1)
  {
  }

  // ---------- selection ----------

  /** How many of the first `i` entries are slices and keep their axis. */
  function Kept(es: seq<Entry>, i: nat): nat
    requires i <= |es|
  {
    if i == 0 then 0 else Kept(es, i - 1) + (if es[i - 1].Slice? then 1 else 0)
  }

  lemma {:induction false} KeptFrom(es: seq<Entry>, i: nat)
    requires 0 < i <= |es|
    ensures Kept(es, i) == (if es[0].Slice? then 1 else 0) + Kept(es[1..], i - 1)
    decreases i
  {
    if i > 1 {
      KeptFrom(es, i - 1);
    }
  }

  /** A position fixes its axis; the other axes stay in their order, each with the length and the positions of its
      slice.
   */
  lemma {:induction false} SelectedAxes(shape: seq<nat>, es: seq<Entry>, h: Index, i: nat)
    requires EntriesOk(shape, es) && |h| == |SelectedShape(shape, es)| && i < |shape|
    ensures |h| == Kept(es, |es|)
    ensures es[i].Pos? ==> SourceIndex(shape, es, h)[i] == if es[i].i < 0 then shape[i] + es[i].i else es[i].i
    ensures es[i].Slice? ==>
              && Kept(es, i) < |h| && SelectedShape(shape, es)[Kept(es, i)] == Length(es[i], shape[i])
              && SourceIndex(shape, es, h)[i] == Source(es[i], shape[i], h[Kept(es, i)])
    decreases shape
  {
    hide Length, Source, First, Kept, SelectedShape, SourceIndex;
    KeptFrom(es, |es|);
    KeptNone(es);
    KeptNone(es[1..]);
    AxisStep(shape, es, h);
    if |shape| > 1 {
      SelectedAxes(shape[1..], es[1..], if es[0].Slice? then h[1..] else h, if i == 0 then 0 else i - 1);
    } else {
      SelectedNone();
      assert shape[1..] == [] && es[1..] == [];
    }
    if i > 0 {
      KeptFrom(es, i);
      assert es[i] == es[1..][i - 1] && shape[i] == shape[1..][i - 1];
    } else if es[0].Pos? {
      FirstIs(es[0], shape[0]);
    }
  }

  lemma FirstIs(e: Entry, n: nat)
    requires EntryOk(e, n) && e.Pos?
    ensures First(e, n) == if e.i < 0 then n + e.i else e.i
  {
  }

  lemma AxisStep(shape: seq<nat>, es: seq<Entry>, h: Index)
    requires EntriesOk(shape, es) && |h| == |SelectedShape(shape, es)| && shape != []
    ensures EntriesOk(shape[1..], es[1..]) && (es[0].Slice? ==> h != [])
    ensures var lengths := SelectedShape(shape[1..], es[1..]); var rest := if es[0].Slice? then h[1..] else h;
      && |rest| == |lengths|
      && SelectedShape(shape, es) == (if es[0].Slice? then [Length(es[0], shape[0])] else []) + lengths
      && SourceIndex(shape, es, h) ==
         [if es[0].Slice? then Source(es[0], shape[0], h[0]) else First(es[0], shape[0])] + SourceIndex(shape[1..], es[1..], rest)
  {
    hide Length, Source, First;
    SelectedStep(shape[0], shape[1..], es[0], es[1..]);
    assert [shape[0]] + shape[1..] == shape && [es[0]] + es[1..] == es;
  }

  lemma KeptNone(es: seq<Entry>)
    ensures Kept(es, 0) == 0
  {
  }

  /** The element at `h` and `j` of a selection is that of the source at the positions the entries select. */
  lemma SelectPlaces(t: Tensor, es: seq<Entry>, last: Entry, h: Index, j: nat)
    requires t.Valid() && EntriesOk(t.head, es) && EntryOk(last, t.cols) && last.Slice? && SelectedShape(t.head, es) != []
    requires In(h, Select(t, es, last).head) && j < Select(t, es, last).cols
    ensures |Select(t, es, last).head| == Kept(es, |es|) && Select(t, es, last).cols == Length(last, t.cols)
    ensures forall i :: 0 <= i < |es| && es[i].Slice? ==>
              Kept(es, i) < |h| && Select(t, es, last).head[Kept(es, i)] == Length(es[i], t.head[i])
    ensures exists g: Index :: |g| == |t.head| && Select(t, es, last).At(h, j) == t.At(g, Source(last, t.cols, j))
              && forall i :: 0 <= i < |g| ==>
                   if es[i].Slice? then Kept(es, i) < |h| && g[i] == Source(es[i], t.head[i], h[Kept(es, i)])
                   else g[i] == if es[i].i < 0 then t.head[i] + es[i].i else es[i].i
  {
    hide SelectedShape, SourceIndex, Length, Source, Select, Kept;
    SelectAt(t, es, last, h, j);
    SelectedAxes(t.head, es, h, 0);
    var g := SourceIndex(t.head, es, h);
    forall i | 0 <= i < |es|
      ensures |h| == Kept(es, |es|)
      ensures if es[i].Slice? then
                Kept(es, i) < |h| && SelectedShape(t.head, es)[Kept(es, i)] == Length(es[i], t.head[i])
                && g[i] == Source(es[i], t.head[i], h[Kept(es, i)])
              else g[i] == if es[i].i < 0 then t.head[i] + es[i].i else es[i].i
    {
      SelectedAxes(t.head, es, h, i);
    }
  }

  // ---------- chunks ----------

  /** By a size every chunk but the last has that size; the last has the rest, which is not empty. */
  lemma EachCuts(size: nat, n: nat)
    requires size > 0 && n > 0
    ensures var count := (n + size - 1) / size;
      && count > 0 && Cuts(Each(size), n).Some? && |Cuts(Each(size), n).value| == count
      && var c := Cuts(Each(size), n).value;
         && (forall i :: 0 <= i < count - 1 ==> c[i] == size)
         && c[count - 1] == n - size * (count - 1) && 1 <= c[count - 1] <= size
         && forall i :: 0 <= i < count ==> LoraSplit.Sum(c[..i]) == size * i
  {
    hide Chunked;
    var c := Cuts(Each(size), n).value;
    ChunkedEach(size, n);
    var k := |c| - 1;
    assert c[..|c|] == c;
    forall i | 0 <= i <= k ensures LoraSplit.Sum(c[..i]) == size * i {
      SumOfEqual(c, size, i);
    }
    SumTo(c, k);
    assert n + size - 1 == k * size + size + (c[k] - 1);
    assert k * size + size == (k + 1) * size;
    Quotient(k + 1, size, c[k] - 1);
    assert (n + size - 1) / size == k + 1;
  }

  lemma {:induction false} ChunkedEach(size: nat, n: nat)
    requires size > 0 && n > 0
    ensures var c := Chunked(size, n);
      && c != [] && (forall i :: 0 <= i < |c| - 1 ==> c[i] == size) && 1 <= c[|c| - 1] <= size
    decreases n
  {
    if n > size {
      ChunkedEach(size, n - size);
    }
  }

  lemma {:induction false} SumOfEqual(c: seq<nat>, size: nat, i: nat)
    requires i < |c| && forall k :: 0 <= k < |c| - 1 ==> c[k] == size
    ensures LoraSplit.Sum(c[..i]) == size * i
  {
    if i > 0 {
      SumOfEqual(c, size, i - 1);
      SumTo(c, i - 1);
      assert size * i == size * (i - 1) + size;
    }
  }

  function Total(sizes: seq<int>): int {
    if sizes == [] then 0 else sizes[0] + Total(sizes[1..])
  }

  /** Listed sizes are the lengths of the chunks, if none is negative and they make up the axis. */
  lemma ListedCuts(sizes: seq<int>, n: nat)
    ensures Cuts(Listed(sizes), n).Some? <==> (forall i :: 0 <= i < |sizes| ==> sizes[i] >= 0) && Total(sizes) == n
    ensures Cuts(Listed(sizes), n).Some? ==>
              var c := Cuts(Listed(sizes), n).value; |c| == |sizes| && forall i :: 0 <= i < |c| ==> c[i] == sizes[i]
  {
    if forall i :: 0 <= i < |sizes| ==> sizes[i] >= 0 {
      TotalIs(sizes);
    }
  }

  lemma {:induction false} TotalIs(sizes: seq<int>)
    requires forall i :: 0 <= i < |sizes| ==> sizes[i] >= 0
    ensures LoraSplit.Sum(Naturals(sizes)) == Total(sizes)
    decreases sizes
  {
    if sizes != [] {
      TotalIs(sizes[1..]);
      assert Naturals(sizes)[1..] == Naturals(sizes[1..]);
    }
  }

  /** A split by a size is refused for a negative size, and for zero unless the axis is empty; an empty axis is one
      empty chunk.
   */
  lemma EachRefused(size: int, n: nat)
    ensures Cuts(Each(size), n).None? <==> size < 0 || (size == 0 && n > 0)
    ensures size >= 0 ==> Cuts(Each(size), 0) == Some([0])
  {
    hide Chunked;
  }

  /** Chunk `i` along axis `d` is W from where the earlier chunks end, and W on every other axis. */
  lemma SplitPlaces(t: Tensor, s: Sizes, d: nat, i: nat, h: Index, j: nat)
    requires t.Valid() && d <= |t.head| && DenseSplit(t, s, d).Some? && i < |DenseSplit(t, s, d).value|
    requires In(h, DenseSplit(t, s, d).value[i].head) && j < DenseSplit(t, s, d).value[i].cols
    ensures Cuts(s, Extent(t, d)).Some? && |DenseSplit(t, s, d).value| == |Cuts(s, Extent(t, d)).value|
    ensures var c, chunk := Cuts(s, Extent(t, d)).value, DenseSplit(t, s, d).value[i]; var start := LoraSplit.Sum(c[..i]);
      && chunk.head == (if d < |t.head| then t.head[d := c[i]] else t.head) && chunk.cols == (if d < |t.head| then t.cols else c[i])
      && |h| == |t.head| && chunk.At(h, j) == if d < |t.head| then t.At(h[d := start + h[d]], j) else t.At(h, start + j)
  {
    hide Narrow, Chunk;
    var c := Cuts(s, Extent(t, d)).value;
    ChunkCovers(c, i, 0);
    NarrowPlaces(t, d, Chunk(c, i), h, j);
    ChunkCovers(c, i, if d < |t.head| then h[d] else j);
  }

  lemma NarrowPlaces(t: Tensor, d: nat, e: Entry, h: Index, j: nat)
    requires t.Valid() && d <= |t.head| && IsSlice(e) && In(h, Narrow(t, d, e).head) && j < Narrow(t, d, e).cols
    ensures var r, n := Narrow(t, d, e), Extent(t, d);
      && r.head == (if d < |t.head| then t.head[d := Length(e, n)] else t.head) && r.cols == (if d < |t.head| then t.cols else Length(e, n))
      && |h| == |t.head| && r.At(h, j) == if d < |t.head| then t.At(h[d := Source(e, n, h[d])], j) else t.At(h, Source(e, n, j))
  {
    hide Length, Source, SelectedShape, SourceIndex, Select;
    FullSelection(t.head);
    SourceFull(t.cols, j);
    var fulls := Fulls(|t.head|);
    if d == |t.head| {
      SelectAt(t, fulls, e, h, j);
    } else {
      var es := fulls[d := e];
      SlicesKeepRank(t.head, es);
      SelectAt(t, es, FULL, h, j);
      AllKept(es, |es|);
      forall i | 0 <= i < |t.head|
        ensures SelectedShape(t.head, es)[i] == t.head[d := Length(e, t.head[d])][i]
        ensures SourceIndex(t.head, es, h)[i] == h[d := Source(e, t.head[d], h[d])][i]
      {
        SelectedAxes(t.head, es, h, i);
        AllKept(es, i);
        FullSlice(t.head[i]);
      }
      assert SelectedShape(t.head, es) == t.head[d := Length(e, t.head[d])];
      assert SourceIndex(t.head, es, h) == h[d := Source(e, t.head[d], h[d])];
    }
  }

  lemma {:induction false} AllKept(es: seq<Entry>, i: nat)
    requires i <= |es| && forall k :: 0 <= k < |es| ==> es[k].Slice?
    ensures Kept(es, i) == i
  {
    if i > 0 {
      AllKept(es, i - 1);
    }
  }

  // ---------- the product ----------

  function Dot(xs: seq<real>, ys: seq<real>): real
    requires |xs| == |ys|
  {
    if xs == [] then 0.0 else xs[0] * ys[0] + Dot(xs[1..], ys[1..])
  }

  lemma {:induction false} DotSnoc(xs: seq<real>, ys: seq<real>, x: real, y: real)
    requires |xs| == |ys|
    ensures Dot(xs + [x], ys + [y]) == Dot(xs, ys) + x * y
    decreases xs
  {
    if xs == [] {
      assert ([] + [x])[1..] == [] && ([] + [y])[1..] == [];
    } else {
      assert (xs + [x])[1..] == xs[1..] + [x] && (ys + [y])[1..] == ys[1..] + [y];
      DotSnoc(xs[1..], ys[1..], x, y);
    }
  }

  /** The index into A for a row of W: zero on the axes A has in common for all. */
  function RowIndex(la: seq<nat>, h: Index): (r: Index)
    requires |h| == |la| + 1
    ensures |r| == |la|
  {
    seq(|la|, i requires 0 <= i < |la| => if la[i] == 1 then 0 else h[i])
  }

  function RowOfB(p: Lora, h: Index, n: nat): (r: seq<real>)
    ensures |r| == n
  {
    seq(n, r requires 0 <= r < n => p.b.At(h, r))
  }

  function ColumnOfA(p: Lora, h: Index, j: nat, n: nat): (r: seq<real>)
    requires p.a.head != [] && |h| == |p.a.head|
    ensures |r| == n
  {
    seq(n, r requires 0 <= r < n => p.a.At(RowIndex(Lead(p.a.head), h) + [r], j))
  }

  /** An element of W is the product of a row of B and a column of A over the whole rank. */
  lemma MaterializedIs(p: Lora, h: Index, j: nat)
    requires WellFormed(p) && In(h, p.b.head) && j < p.a.cols
    ensures p.a.head != [] && |h| == |p.a.head|
    ensures Materialized(p).At(h, j) == Dot(RowOfB(p, h, p.b.cols), ColumnOfA(p, h, j, p.b.cols))
  {
    hide Materialized, Product;
    MaterializedAt(p, h, j);
    LeadLengths(p, h);
    ProductIs(p, h, j, p.b.cols);
  }

  lemma {:induction false} ProductIs(p: Lora, h: Index, j: nat, n: nat)
    requires p.a.head != [] && |h| == |p.a.head|
    ensures Product(p, h, j, n) == Dot(RowOfB(p, h, n), ColumnOfA(p, h, j, n))
  {
    hide Dot;
    if n == 0 {
      assert Dot([], []) == 0.0 by { DotNone(); }
    } else {
      ProductIs(p, h, j, n - 1);
      var xs, ys := RowOfB(p, h, n - 1), ColumnOfA(p, h, j, n - 1);
      var la := Lead(p.a.head);
      assert RowIndex(la, h) == Bcast(la, Lead(h));
      var x, y := p.b.At(h, n - 1), p.a.At(RowIndex(la, h) + [n - 1], j);
      DotSnoc(xs, ys, x, y);
      assert RowOfB(p, h, n) == xs + [x] && ColumnOfA(p, h, j, n) == ys + [y];
    }
  }

  lemma DotNone()
    ensures Dot([], []) == 0.0
  {
  }

  // ---------- reshape ----------

  predicate LexLess(a: Index, b: Index)
    requires |a| == |b|
    decreases a
  {
    a != [] && (a[0] < b[0] || (a[0] == b[0] && LexLess(a[1..], b[1..])))
  }

  /** The flat position is the place in lexicographic order; by `FlatIn` it runs through all numbers below the count. */
  lemma {:induction false} FlatOrder(shape: seq<nat>, a: Index, b: Index)
    requires In(a, shape) && In(b, shape)
    ensures Flat(shape, a) < Flat(shape, b) <==> LexLess(a, b)
    decreases shape
  {
    if shape != [] {
      var c := Count(shape[1..]);
      FlatOrder(shape[1..], a[1..], b[1..]);
      FlatIn(shape[1..], a[1..]);
      FlatIn(shape[1..], b[1..]);
      if a[0] < b[0] {
        RowsApart(a[0], b[0], c, Flat(shape[1..], a[1..]), Flat(shape[1..], b[1..]));
      } else if b[0] < a[0] {
        RowsApart(b[0], a[0], c, Flat(shape[1..], b[1..]), Flat(shape[1..], a[1..]));
      }
    }
  }

  lemma RowsApart(i: nat, j: nat, c: nat, f: nat, g: nat)
    requires i < j && f < c
    ensures i * c + f < j * c + g
  {
    MulMono(i + 1, j, c);
    assert (i + 1) * c == i * c + c;
  }

  /** A reshaped tensor has at each index what the tensor has at the index in the same place of the order. */
  lemma ReshapedInOrder(t: Tensor, head: seq<nat>, cols: nat, h: Index, j: nat, g: Index, k: nat)
    requires t.Valid() && head != [] && SameCount(t, head, cols) && In(h, head) && j < cols && In(g, t.head) && k < t.cols
    requires Flat(head + [cols], h + [j]) == Flat(t.head + [t.cols], g + [k])
    ensures Reshaped(t, head, cols).At(h, j) == t.At(g, k)
  {
    hide Flat, Unflat, Count;
    InAppend(g, t.head, k, t.cols);
    FlatIn(t.head + [t.cols], g + [k]);
    var src := Unflat(t.head + [t.cols], Flat(head + [cols], h + [j]));
    assert src == g + [k] && src[..|t.head|] == g && src[|t.head|] == k;
  }

  // ---------- extents asked for ----------

  /** The extents agree with what is asked; an axis given as -1 may have any. */
  predicate Meets(dims: seq<int>, e: seq<nat>) {
    |e| == |dims| && forall i :: 0 <= i < |dims| ==> dims[i] == -1 || e[i] == dims[i]
  }

  ghost predicate Candidate(t: Tensor, dims: seq<int>, e: seq<nat>) {
    Meets(dims, e) && Count(e) == Count(t.head + [t.cols])
  }

  /** A reshape of W with at most one extent left open is accepted exactly when one choice of extents, and only one,
      has as many elements; those are the extents it gets.
   */
  lemma ReshapeExact(t: Tensor, dims: seq<int>)
    requires t.Valid() && |dims| >= 2 && OneInferred(dims)
    ensures DenseReshape(t, dims).Some? <==>
              exists e :: Candidate(t, dims, e) && forall o :: Candidate(t, dims, o) ==> o == e
    ensures DenseReshape(t, dims).Some? ==> Candidate(t, dims, DenseReshape(t, dims).value.Shape())
  {
    hide Reshaped, Count, DimProduct;
    var m := Count(t.head + [t.cols]);
    if -1 in dims {
      var pos := PlaceOf(dims);
      OpenReshape(t, dims, pos);
    } else {
      ClosedReshape(t, dims);
    }
  }

  lemma PlaceOf(dims: seq<int>) returns (pos: nat)
    requires -1 in dims && OneInferred(dims)
    ensures pos < |dims| && dims[pos] == -1 && forall i :: 0 <= i < |dims| && i != pos ==> dims[i] != -1
  {
    pos :| pos < |dims| && dims[pos] == -1;
  }

  lemma {:induction false} CountClosed(dims: seq<int>, e: seq<nat>)
    requires Meets(dims, e) && -1 !in dims
    ensures Count(e) == DimProduct(dims)
    decreases dims
  {
    if dims != [] {
      assert -1 !in dims[1..];
      CountClosed(dims[1..], e[1..]);
    }
  }

  lemma {:induction false} CountOpen(dims: seq<int>, e: seq<nat>, pos: nat)
    requires Meets(dims, e) && pos < |dims| && dims[pos] == -1
    requires forall i :: 0 <= i < |dims| && i != pos ==> dims[i] != -1
    ensures Count(e) == DimProduct(dims) * e[pos]
    decreases dims
  {
    if pos == 0 {
      assert -1 !in dims[1..];
      CountClosed(dims[1..], e[1..]);
    } else {
      CountOpen(dims[1..], e[1..], pos - 1);
      Regroup(dims[0], DimProduct(dims[1..]), e[pos]);
    }
  }

  lemma Regroup(x: int, y: int, z: int)
    ensures x * (y * z) == x * y * z
  {
  }

  lemma ClosedReshape(t: Tensor, dims: seq<int>)
    requires t.Valid() && |dims| >= 2 && -1 !in dims
    ensures DenseReshape(t, dims).Some? <==>
              exists e :: Candidate(t, dims, e) && forall o :: Candidate(t, dims, o) ==> o == e
    ensures DenseReshape(t, dims).Some? ==> Candidate(t, dims, DenseReshape(t, dims).value.Shape())
  {
    hide Reshaped, Count, DimProduct;
    if NonNegative(dims) {
      var e := Extents(dims);
      assert Lead(e) + [Row(e)] == e;
      assert DenseReshape(t, dims).Some? <==> Candidate(t, dims, e);
      forall o | Candidate(t, dims, o) ensures o == e {
        assert forall i :: 0 <= i < |o| ==> o[i] == e[i];
      }
    } else {
      var i :| 0 <= i < |dims| && dims[i] < 0;
      NoneMeets(dims, i);
    }
  }

  lemma NoneMeets(dims: seq<int>, i: nat)
    requires i < |dims| && dims[i] < 0 && dims[i] != -1
    ensures forall e: seq<nat> :: !Meets(dims, e)
  {
  }

  lemma OpenReshape(t: Tensor, dims: seq<int>, pos: nat)
    requires t.Valid() && |dims| >= 2 && pos < |dims| && dims[pos] == -1
    requires forall i :: 0 <= i < |dims| && i != pos ==> dims[i] != -1
    ensures DenseReshape(t, dims).Some? <==>
              exists e :: Candidate(t, dims, e) && forall o :: Candidate(t, dims, o) ==> o == e
    ensures DenseReshape(t, dims).Some? ==> Candidate(t, dims, DenseReshape(t, dims).value.Shape())
  {
    hide Reshaped, Count, DimProduct, DenseReshape;
    var n, m := Count(t.head + [t.cols]), DimProduct(dims);
    if DenseReshape(t, dims).Some? {
      OpenTaken(t, dims, pos);
    }
    if exists i :: 0 <= i < |dims| && i != pos && dims[i] < 0 {
      var i :| 0 <= i < |dims| && i != pos && dims[i] < 0;
      NoneMeets(dims, i);
    } else {
      OpenProduct(dims, pos);
      if m == 0 {
        NotOne(t, dims, pos);
      } else if n % m == 0 {
        ChoiceTaken(t, dims, pos);
        var e := Choice(dims, pos, n / m);
        CountOpen(dims, e, pos);
        assert m * (n / m) == n;
        forall o | Candidate(t, dims, o) ensures o == e {
          CountOpen(dims, o, pos);
          Cancelled(m, o[pos], n / m);
        }
      } else {
        forall o | Candidate(t, dims, o) ensures false {
          CountOpen(dims, o, pos);
          Divides(m, o[pos]);
        }
      }
    }
  }

  /** The extents with `k` where -1 is asked for. */
  function Choice(dims: seq<int>, pos: nat, k: nat): (e: seq<nat>)
    requires pos < |dims| && forall i :: 0 <= i < |dims| && i != pos ==> dims[i] >= 0
    ensures |e| == |dims| && e[pos] == k && forall i :: 0 <= i < |dims| && i != pos ==> e[i] == dims[i]
  {
    seq(|dims|, i requires 0 <= i < |dims| => if i == pos then k else dims[i])
  }

  lemma Cancelled(m: int, x: int, y: int)
    requires m != 0 && m * x == m * y
    ensures x == y
  {
  }

  lemma Divides(m: nat, x: nat)
    requires m > 0
    ensures m * x % m == 0
  {
    Quotient(x, m, 0);
  }

  lemma {:induction false} OpenProduct(dims: seq<int>, pos: nat)
    requires forall i :: 0 <= i < |dims| && i != pos ==> dims[i] >= 0
    requires pos < |dims| ==> dims[pos] == -1
    ensures DimProduct(dims) >= 0
    decreases dims
  {
    if dims != [] {
      if pos == 0 {
        OpenProduct(dims[1..], |dims|);
      } else {
        OpenProduct(dims[1..], pos - 1);
        NatProduct(dims[0], DimProduct(dims[1..]));
      }
    }
  }

  lemma NatProduct(x: nat, y: nat)
    ensures x * y >= 0
  {
  }

  /** With another extent zero there is no choice, or any will do. */
  lemma NotOne(t: Tensor, dims: seq<int>, pos: nat)
    requires pos < |dims| && dims[pos] == -1 && DimProduct(dims) == 0
    requires forall i :: 0 <= i < |dims| && i != pos ==> dims[i] >= 0
    ensures !exists e :: Candidate(t, dims, e) && forall o :: Candidate(t, dims, o) ==> o == e
  {
    hide Count, DimProduct;
    forall e | Candidate(t, dims, e) ensures exists o :: Candidate(t, dims, o) && o != e {
      var o := Choice(dims, pos, e[pos] + 1);
      CountOpen(dims, e, pos);
      CountOpen(dims, o, pos);
      assert o[pos] != e[pos];
      assert Candidate(t, dims, o);
    }
  }

  lemma OpenTaken(t: Tensor, dims: seq<int>, pos: nat)
    requires t.Valid() && |dims| >= 2 && pos < |dims| && dims[pos] == -1 && DenseReshape(t, dims).Some?
    requires forall i :: 0 <= i < |dims| && i != pos ==> dims[i] != -1
    ensures var n, m := Count(t.head + [t.cols]), DimProduct(dims);
      m != 0 && n % m == 0 && Candidate(t, dims, DenseReshape(t, dims).value.Shape())
  {
    hide DenseReshape, Count, DimProduct, Asked, Meets;
    ShapeTaken(t, dims);
    OpenAsked(t, dims, pos);
  }

  lemma ShapeTaken(t: Tensor, dims: seq<int>)
    requires t.Valid() && DenseReshape(t, dims).Some?
    ensures Asked(t.head, t.cols, dims).Some?
    ensures var e := Asked(t.head, t.cols, dims).value;
      DenseReshape(t, dims).value.Shape() == e && Count(e) == Count(t.head + [t.cols])
  {
    hide Reshaped, Count, Asked;
    var e := Asked(t.head, t.cols, dims).value;
    assert Lead(e) + [Row(e)] == e;
  }

  lemma ChoiceTaken(t: Tensor, dims: seq<int>, pos: nat)
    requires t.Valid() && |dims| >= 2 && pos < |dims| && dims[pos] == -1
    requires forall i :: 0 <= i < |dims| && i != pos ==> dims[i] >= 0
    requires DimProduct(dims) > 0 && Count(t.head + [t.cols]) % DimProduct(dims) == 0
    ensures var n, m := Count(t.head + [t.cols]), DimProduct(dims);
      n / m >= 0 && (Candidate(t, dims, Choice(dims, pos, n / m)) ==> DenseReshape(t, dims).Some?)
  {
    hide Reshaped, Count, DimProduct, Asked, Meets, Choice;
    ChoiceAsked(t, dims, pos);
    var e := Asked(t.head, t.cols, dims);
    assert Lead(e.value) + [Row(e.value)] == e.value;
  }

  lemma OpenAsked(t: Tensor, dims: seq<int>, pos: nat)
    requires t.Valid() && |dims| >= 2 && pos < |dims| && dims[pos] == -1 && Asked(t.head, t.cols, dims).Some?
    requires forall i :: 0 <= i < |dims| && i != pos ==> dims[i] != -1
    ensures var n, m := Count(t.head + [t.cols]), DimProduct(dims);
      m != 0 && n % m == 0 && Meets(dims, Asked(t.head, t.cols, dims).value)
  {
    hide Count, DimProduct;
  }

  lemma ChoiceAsked(t: Tensor, dims: seq<int>, pos: nat)
    requires t.Valid() && |dims| >= 2 && pos < |dims| && dims[pos] == -1
    requires forall i :: 0 <= i < |dims| && i != pos ==> dims[i] >= 0
    requires DimProduct(dims) > 0 && Count(t.head + [t.cols]) % DimProduct(dims) == 0
    ensures var n, m := Count(t.head + [t.cols]), DimProduct(dims);
      n / m >= 0 && Asked(t.head, t.cols, dims) == Some(Choice(dims, pos, n / m))
  {
    hide Count, DimProduct;
    var n, m := Count(t.head + [t.cols]), DimProduct(dims);
    assert n / m >= 0;
    assert Asked(t.head, t.cols, dims).Some?;
    assert Asked(t.head, t.cols, dims).value == Choice(dims, pos, n / m);
  }

  // ---------- axes ----------

  /** A list of axes is accepted exactly when, with its negative entries counted from the end, it is a permutation. */
  lemma AxesExact(dims: seq<int>, n: nat, axes: seq<nat>)
    ensures Axes(dims, n) == Some(axes) <==>
              |dims| == n && Permutes(axes, n) && forall i :: 0 <= i < n ==> dims[i] == axes[i] || dims[i] == axes[i] - n
  {
    if Permutes(axes, n) && |dims| == n && forall i :: 0 <= i < n ==> dims[i] == axes[i] || dims[i] == axes[i] - n {
      assert axes == seq(n, i requires 0 <= i < n => (if dims[i] < 0 then dims[i] + n else dims[i]) as nat);
    }
  }

  /** Axis `i` of a permuted tensor is axis `axes[i]` of the tensor, in extent and in position. */
  lemma PermutedPlaces(t: Tensor, axes: seq<nat>, h: Index, j: nat, g: Index, k: nat)
    requires t.Valid() && Permutes(axes, |t.head| + 1) && In(h, Permuted(t, axes).head) && j < Permuted(t, axes).cols
    requires |g| == |t.head| && forall i :: 0 <= i <= |g| ==> (g + [k])[axes[i]] == (h + [j])[i]
    ensures |Permuted(t, axes).head| == |t.head|
    ensures forall i :: 0 <= i <= |t.head| ==>
              Permuted(t, axes).Shape()[i] == t.Shape()[axes[i]]
    ensures Permuted(t, axes).At(h, j) == t.At(g, k)
  {
    hide Permuted;
    PermutedAt(t, axes, h, j, g, k);
    PermutedExtents(t, axes);
  }

  lemma PermutedExtents(t: Tensor, axes: seq<nat>)
    requires t.Valid() && Permutes(axes, |t.head| + 1)
    ensures |Permuted(t, axes).head| == |t.head|
    ensures forall i :: 0 <= i <= |t.head| ==> Permuted(t, axes).Shape()[i] == t.Shape()[axes[i]]
  {
    assert |t.head + [t.cols]| == |t.head| + 1;
  }

  /** A transposition exchanges two axes, counted from the end when negative, and keeps the others. */
  lemma SwappedPlaces(n: nat, dim0: int, dim1: int)
    ensures Swapped(n, dim0, dim1).Some? <==> 0 <= dim0 + n < 2 * n && 0 <= dim1 + n < 2 * n
    ensures Swapped(n, dim0, dim1).Some? ==>
              var i, j := if dim0 < 0 then n + dim0 else dim0, if dim1 < 0 then n + dim1 else dim1;
              var axes := Axes(Swapped(n, dim0, dim1).value, n);
              && axes.Some? && axes.value[i] == j && axes.value[j] == i
              && forall k :: 0 <= k < n && k != i && k != j ==> axes.value[k] == k
  {
    hide Permutes;
    if Swapped(n, dim0, dim1).Some? {
      SwappedAxes(n, dim0, dim1);
    }
  }

  // ---------- scaling ----------

  /** The place for `x` in a tensor of this shape, aligned with the last axes of `x`. */
  function AlignedTo(shape: seq<nat>, x: Index): (r: Index)
    requires |shape| <= |x|
    ensures |r| == |shape|
  {
    seq(|shape|, i requires 0 <= i < |shape| => if shape[i] == 1 then 0 else x[|x| - |shape| + i])
  }

  function FactorShape(f: Factor): seq<nat> {
    if f.Number? then [] else f.shape
  }

  function FactorAt(f: Factor, x: Index): real {
    match f
    case Number(c) => c
    case Dense(_, values) => values(x)
  }

  /** The extent of an axis counted from the last; one where there is no such axis. */
  function FromLast(shape: seq<nat>, i: nat): nat {
    if i < |shape| then shape[|shape| - 1 - i] else 1
  }

  /** Scaling aligns the last axes and stretches axes of extent one; it is refused where two others differ. */
  lemma ScaledPlaces(t: Tensor, f: Factor)
    requires t.Valid()
    ensures DenseScale(t, f).Some? <==>
              forall i: nat :: FromLast(t.Shape(), i) == FromLast(FactorShape(f), i)
                               || FromLast(t.Shape(), i) == 1 || FromLast(FactorShape(f), i) == 1
    ensures DenseScale(t, f).Some? ==>
              var r := DenseScale(t, f).value;
              && |r.Shape()| == Larger(|t.Shape()|, |FactorShape(f)|)
              && forall i: nat :: FromLast(r.Shape(), i) ==
                   if FromLast(t.Shape(), i) == 1 then FromLast(FactorShape(f), i) else FromLast(t.Shape(), i)
  {
    hide DenseScale, Broadcastable, FromLast;
    var s, o := t.Shape(), FactorShape(f);
    match f
    case Dense(_, _) =>
      DenseShape(t, f);
      var n := Larger(|s|, |o|);
      var u, v := Filled(s, n), Filled(o, n);
      FilledFromLast(s, n);
      FilledFromLast(o, n);
      FromLastBroadcasts(u, v, s, o);
      if Broadcastable(u, v) {
        JointFromLast(u, v, s, o, Joint(u, v));
      }
    case Number(c) =>
      NumberScaled(t, c);
      NumberShape(t, c);
      NoneFromLast();
  }

  lemma DenseShape(t: Tensor, f: Factor)
    requires t.Valid() && f.Dense?
    ensures var n := Larger(|t.Shape()|, |f.shape|); var u, v := Filled(t.Shape(), n), Filled(f.shape, n);
      && (DenseScale(t, f).Some? <==> Broadcastable(u, v))
      && (DenseScale(t, f).Some? ==> DenseScale(t, f).value.Shape() == Joint(u, v))
  {
    hide TimesValue, Broadcastable, Joint, Filled;
  }

  lemma NumberShape(t: Tensor, c: real)
    requires t.Valid() && DenseScale(t, Number(c)).Some?
    ensures DenseScale(t, Number(c)).value.Shape() == t.Shape()
  {
    hide DenseScale;
    NumberScaled(t, c);
  }

  lemma NoneFromLast()
    ensures forall i: nat :: FromLast([], i) == 1
  {
  }

  lemma FilledFromLast(s: seq<nat>, n: nat)
    requires |s| <= n
    ensures forall i: nat :: i < n ==> Filled(s, n)[n - 1 - i] == FromLast(s, i)
  {
  }

  lemma JointFromLast(u: seq<nat>, v: seq<nat>, s: seq<nat>, o: seq<nat>, r: seq<nat>)
    requires |u| == |v| == |r| == Larger(|s|, |o|)
    requires forall i: nat :: i < |u| ==> u[|u| - 1 - i] == FromLast(s, i)
    requires forall i: nat :: i < |v| ==> v[|v| - 1 - i] == FromLast(o, i)
    requires forall i :: 0 <= i < |r| ==> r[i] == if u[i] == 1 then v[i] else u[i]
    ensures forall i: nat :: FromLast(r, i) == if FromLast(s, i) == 1 then FromLast(o, i) else FromLast(s, i)
  {
    forall i: nat ensures FromLast(r, i) == if FromLast(s, i) == 1 then FromLast(o, i) else FromLast(s, i) {
      if i < |r| {
        assert r[|r| - 1 - i] == if u[|u| - 1 - i] == 1 then v[|v| - 1 - i] else u[|u| - 1 - i];
      }
    }
  }

  lemma FromLastBroadcasts(u: seq<nat>, v: seq<nat>, s: seq<nat>, o: seq<nat>)
    requires |u| == |v| && |s| <= |u| && |o| <= |u|
    requires forall i: nat :: i < |u| ==> u[|u| - 1 - i] == FromLast(s, i) && v[|u| - 1 - i] == FromLast(o, i)
    ensures Broadcastable(u, v) <==> forall i: nat :: FromLast(s, i) == FromLast(o, i) || FromLast(s, i) == 1 || FromLast(o, i) == 1
  {
    if forall i: nat :: FromLast(s, i) == FromLast(o, i) || FromLast(s, i) == 1 || FromLast(o, i) == 1 {
      forall k | 0 <= k < |u| ensures u[k] == v[k] || u[k] == 1 || v[k] == 1 {
        assert u[k] == FromLast(s, |u| - 1 - k) && v[k] == FromLast(o, |u| - 1 - k);
      }
    }
  }

  /** And multiplies the two elements that come to lie on each other. */
  lemma ScaledValues(t: Tensor, f: Factor, h: Index, j: nat)
    requires t.Valid() && DenseScale(t, f).Some? && In(h, DenseScale(t, f).value.head) && j < DenseScale(t, f).value.cols
    ensures |t.Shape()| <= |h + [j]| && |FactorShape(f)| <= |h + [j]|
    ensures var g := AlignedTo(t.Shape(), h + [j]);
      DenseScale(t, f).value.At(h, j) == t.At(g[..|t.head|], g[|t.head|]) * FactorAt(f, AlignedTo(FactorShape(f), h + [j]))
  {
    hide DenseScale;
    match f
    case Number(c) => NumberValues(t, c, h, j);
    case Dense(shape, values) => DenseValues(t, shape, values, h, j);
  }

  lemma NumberValues(t: Tensor, c: real, h: Index, j: nat)
    requires t.Valid() && DenseScale(t, Number(c)).Some?
    requires In(h, DenseScale(t, Number(c)).value.head) && j < DenseScale(t, Number(c)).value.cols
    ensures |t.Shape()| == |h + [j]|
    ensures var g := AlignedTo(t.Shape(), h + [j]); DenseScale(t, Number(c)).value.At(h, j) == t.At(g[..|t.head|], g[|t.head|]) * c
  {
    hide DenseScale, Tensor.At, Bcast;
    NumberAt(t, c, h, j);
    var g := AlignedTo(t.Shape(), h + [j]);
    AlignedParts(t.head, t.cols, h, j);
  }

  lemma NumberAt(t: Tensor, c: real, h: Index, j: nat)
    requires t.Valid() && DenseScale(t, Number(c)).Some?
    requires In(h, DenseScale(t, Number(c)).value.head) && j < DenseScale(t, Number(c)).value.cols
    ensures |h| == |t.head| && j < t.cols && DenseScale(t, Number(c)).value.At(h, j) == t.At(Bcast(t.head, h), j) * c
  {
    hide DenseScale, Tensor.At, Bcast, Scaled;
    NumberScaled(t, c);
    var ones := Filled([], |t.head|);
    assert Joint(t.head, ones) == t.head;
    ScaledAt(t, ones, _ => c, h, j);
  }

  lemma AlignedParts(head: seq<nat>, cols: nat, h: Index, j: nat)
    requires |h| == |head| && j < cols
    ensures var g := AlignedTo(head + [cols], h + [j]); g[..|head|] == Bcast(head, h) && g[|head|] == j
  {
  }

  lemma DenseValues(t: Tensor, shape: seq<nat>, values: Index -> real, h: Index, j: nat)
    requires t.Valid() && DenseScale(t, Dense(shape, values)).Some?
    requires In(h, DenseScale(t, Dense(shape, values)).value.head) && j < DenseScale(t, Dense(shape, values)).value.cols
    ensures |t.Shape()| <= |h + [j]| && |shape| <= |h + [j]|
    ensures var g := AlignedTo(t.Shape(), h + [j]);
      DenseScale(t, Dense(shape, values)).value.At(h, j) == t.At(g[..|t.head|], g[|t.head|]) * values(AlignedTo(shape, h + [j]))
  {
    hide TimesValue, DenseScale, Tensor.At;
    DenseAt(t, shape, values, h, j);
    TimesPlaces(t, shape, values, h + [j]);
  }

  lemma DenseAt(t: Tensor, shape: seq<nat>, values: Index -> real, h: Index, j: nat)
    requires t.Valid() && DenseScale(t, Dense(shape, values)).Some?
    requires In(h, DenseScale(t, Dense(shape, values)).value.head) && j < DenseScale(t, Dense(shape, values)).value.cols
    ensures |h + [j]| == Larger(|t.Shape()|, |shape|)
    ensures DenseScale(t, Dense(shape, values)).value.At(h, j) == TimesValue(t, shape, values, h + [j])
  {
    hide TimesValue, Tensor.At, Bcast;
  }

  lemma TimesPlaces(t: Tensor, shape: seq<nat>, values: Index -> real, x: Index)
    requires |x| == Larger(|t.Shape()|, |shape|)
    ensures var g := AlignedTo(t.Shape(), x);
      TimesValue(t, shape, values, x) == t.At(g[..|t.head|], g[|t.head|]) * values(AlignedTo(shape, x))
  {
    BcastAligned(t.Shape(), x);
    BcastAligned(shape, x);
  }

  lemma BcastAligned(shape: seq<nat>, x: Index)
    requires |shape| <= |x|
    ensures Bcast(Filled(shape, |x|), x)[|x| - |shape|..] == AlignedTo(shape, x)
  {
  }

  // ---------- stacking and joining ----------

  /** Tensors stack exactly when there is one and all have its shape; each becomes one row of the new first axis. */
  lemma StackedPlaces(ts: seq<Tensor>)
    requires AllValid(ts)
    ensures DenseStack(ts).Some? <==> ts != [] && forall i :: 0 <= i < |ts| ==> ts[i].Shape() == ts[0].Shape()
    ensures DenseStack(ts).Some? ==>
              var r := DenseStack(ts).value;
              && r.Shape() == [|ts|] + ts[0].Shape()
              && forall i: nat, h: Index, j: nat :: i < |ts| && In(h, ts[0].head) && j < ts[0].cols ==> r.At([i] + h, j) == ts[i].At(h, j)
  {
    if ts != [] && forall i :: 0 <= i < |ts| ==> ts[i].Shape() == ts[0].Shape() {
      forall i | 0 <= i < |ts| ensures ts[i].head == ts[0].head && ts[i].cols == ts[0].cols {
        SameShapes(ts[i], ts[0]);
      }
    }
    if DenseStack(ts).Some? {
      var r := DenseStack(ts).value;
      assert r.Shape() == [|ts|] + ts[0].Shape();
      forall i: nat, h: Index, j: nat | i < |ts| && In(h, ts[0].head) && j < ts[0].cols ensures r.At([i] + h, j) == ts[i].At(h, j) {
        InStep(i, h, |ts|, ts[0].head);
        assert ([i] + h)[1..] == h;
      }
    }
  }

  lemma SameShapes(t: Tensor, u: Tensor)
    ensures t.Shape() == u.Shape() <==> t.head == u.head && t.cols == u.cols
  {
    if t.Shape() == u.Shape() {
      assert t.Shape()[..|t.Shape()| - 1] == t.head && u.Shape()[..|u.Shape()| - 1] == u.head;
      assert t.Shape()[|t.Shape()| - 1] == t.cols && u.Shape()[|u.Shape()| - 1] == u.cols;
    }
  }

  /** Tensors join exactly when all axes but the first agree; the rows of each follow those of the ones before. */
  lemma JoinedPlaces(ts: seq<Tensor>)
    requires AllValid(ts)
    ensures DenseJoin(ts).Some? <==> ts != [] && forall i :: 0 <= i < |ts| ==> ts[i].Shape()[1..] == ts[0].Shape()[1..]
    ensures DenseJoin(ts).Some? ==>
              var r := DenseJoin(ts).value;
              && r.Shape() == [LoraSplit.Sum(Firsts(ts))] + ts[0].Shape()[1..]
              && forall k: nat, i: nat, t: Index, j: nat ::
                   k < |ts| && i < ts[k].head[0] && In(t, ts[0].head[1..]) && j < ts[0].cols ==>
                     r.At([LoraSplit.Sum(Firsts(ts)[..k]) + i] + t, j) == ts[k].At([i] + t, j)
  {
    hide Joined, LoraSplit.Sum;
    forall i | 0 <= i < |ts|
      ensures ts[i].Shape()[1..] == ts[0].Shape()[1..] <==> ts[i].head[1..] == ts[0].head[1..] && ts[i].cols == ts[0].cols
    {
      SameTails(ts[i], ts[0]);
    }
    if DenseJoin(ts).Some? {
      JoinedRows(ts);
    }
  }

  lemma JoinedShape(ts: seq<Tensor>)
    requires ts != [] && AllValid(ts) && SameTail(ts)
    ensures Joined(ts).Shape() == [LoraSplit.Sum(Firsts(ts))] + ts[0].Shape()[1..]
  {
    hide LoraSplit.Sum;
    assert ts[0].Shape()[1..] == ts[0].head[1..] + [ts[0].cols];
  }

  lemma JoinedRows(ts: seq<Tensor>)
    requires ts != [] && AllValid(ts) && SameTail(ts)
    ensures Joined(ts).Shape() == [LoraSplit.Sum(Firsts(ts))] + ts[0].Shape()[1..]
    ensures forall k: nat, i: nat, t: Index, j: nat ::
              k < |ts| && i < ts[k].head[0] && In(t, ts[0].head[1..]) && j < ts[0].cols ==>
                Joined(ts).At([LoraSplit.Sum(Firsts(ts)[..k]) + i] + t, j) == ts[k].At([i] + t, j)
  {
    hide Joined, LoraSplit.Sum, In, Tensor.At, Tensor.Shape;
    JoinedShape(ts);
    forall k: nat, i: nat, t: Index, j: nat | k < |ts| && i < ts[k].head[0] && In(t, ts[0].head[1..]) && j < ts[0].cols
      ensures Joined(ts).At([LoraSplit.Sum(Firsts(ts)[..k]) + i] + t, j) == ts[k].At([i] + t, j)
    {
      LocateAt(Firsts(ts), k, i);
      JoinedAt(ts, LoraSplit.Sum(Firsts(ts)[..k]) + i, t, j);
    }
  }

  lemma SameTails(t: Tensor, u: Tensor)
    requires t.head != [] && u.head != []
    ensures t.Shape()[1..] == u.Shape()[1..] <==> t.head[1..] == u.head[1..] && t.cols == u.cols
  {
    var a, b := t.Shape()[1..], u.Shape()[1..];
    assert a == t.head[1..] + [t.cols] && b == u.head[1..] + [u.cols];
    if a == b {
      assert a[..|a| - 1] == t.head[1..] && b[..|b| - 1] == u.head[1..] && a[|a| - 1] == t.cols && b[|b| - 1] == u.cols;
    }
  }

  /** Pairs stack exactly when the factors have the same shapes. */
  lemma StackAccepted(ps: seq<Lora>)
    requires AllWellFormed(ps)
    ensures Stack(ps).Some? <==>
              ps != [] && forall i :: 0 <= i < |ps| ==> ps[i].a.Shape() == ps[0].a.Shape() && ps[i].b.Shape() == ps[0].b.Shape()
  {
    hide DenseStack, WellFormed;
    StackedPlaces(As(ps));
    StackedPlaces(Bs(ps));
    if ps != [] {
      assert As(ps)[0] == ps[0].a && Bs(ps)[0] == ps[0].b;
      FirstPair(ps);
    }
    forall i | 0 <= i < |ps| ensures As(ps)[i].Shape() == ps[i].a.Shape() && Bs(ps)[i].Shape() == ps[i].b.Shape() {
    }
    if DenseStack(As(ps)).Some? && DenseStack(Bs(ps)).Some? {
      StackedHeads(As(ps));
      StackedHeads(Bs(ps));
    }
  }

  lemma FirstPair(ps: seq<Lora>)
    requires AllWellFormed(ps) && ps != []
    ensures var a, b := ps[0].a, ps[0].b; a.head != [] && |a.head| == |b.head| && a.head[|a.head| - 1] == b.cols
  {
    assert WellFormed(ps[0]);
  }

  lemma StackedHeads(ts: seq<Tensor>)
    requires AllValid(ts) && DenseStack(ts).Some?
    ensures ts != [] && DenseStack(ts).value.head == [|ts|] + ts[0].head && DenseStack(ts).value.cols == ts[0].cols
  {
  }

  /** Matrices join exactly when they have one A between them and as many columns in B; higher tensors when both
      factors join.
   */
  lemma JoinAccepted(ps: seq<Lora>)
    requires AllWellFormed(ps)
    ensures Join(ps).Some? <==>
              && ps != []
              && (forall i :: 0 <= i < |ps| ==> ps[i].b.Shape()[1..] == ps[0].b.Shape()[1..])
              && (if |ps[0].b.head| > 1 then forall i :: 0 <= i < |ps| ==> ps[i].a.Shape()[1..] == ps[0].a.Shape()[1..]
                  else forall i :: 0 <= i < |ps| ==> ps[i].a == ps[0].a)
  {
    hide DenseJoin, WellFormed;
    if ps != [] {
      JoinedPlaces(As(ps));
      JoinedPlaces(Bs(ps));
      assert As(ps)[0] == ps[0].a && Bs(ps)[0] == ps[0].b;
      forall i | 0 <= i < |ps| ensures As(ps)[i].Shape() == ps[i].a.Shape() && Bs(ps)[i].Shape() == ps[i].b.Shape() {
      }
      FirstPair(ps);
      if DenseJoin(Bs(ps)).Some? {
        JoinedHeads(Bs(ps));
      }
      if DenseJoin(As(ps)).Some? {
        JoinedHeads(As(ps));
      }
    }
  }

  lemma JoinedHeads(ts: seq<Tensor>)
    requires AllValid(ts) && DenseJoin(ts).Some?
    ensures ts != [] && ts[0].head != []
    ensures var r := DenseJoin(ts).value; r.head == [LoraSplit.Sum(Firsts(ts))] + ts[0].head[1..] && r.cols == ts[0].cols
  {
  }
}
