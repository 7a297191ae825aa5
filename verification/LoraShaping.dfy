/** Reshape, permute and transpose on a factored weight. */
module LoraShaping {
  import opened LoraIndexing
  import opened LoraTensor
  import opened RowMajor
  import opened Tensors
  import opened Wrappers

  // ---------- reshape ----------

  function DimProduct(dims: seq<int>): int {
    if dims == [] then 1 else (if dims[0] == -1 then 1 else dims[0]) * DimProduct(dims[1..])
  }

  /** The shape asked for, with -1 replaced by the extent that keeps the number of elements. */
  function Expanded(dims: seq<int>, n: nat): Option<seq<int>> {
    if -1 !in dims then Some(dims)
    else
      var m := DimProduct(dims);
      if m == 0 || n % m != 0 then None
      else Some(seq(|dims|, i requires 0 <= i < |dims| => if dims[i] == -1 then n / m else dims[i]))
  }

  predicate NonNegative(dims: seq<int>) {
    forall i :: 0 <= i < |dims| ==> dims[i] >= 0
  }

  function Extents(dims: seq<int>): (r: seq<nat>)
    requires NonNegative(dims)
    ensures |r| == |dims|
  {
    seq(|dims|, i requires 0 <= i < |dims| => dims[i] as nat)
  }

  function Ones(n: nat): (r: seq<nat>)
    ensures |r| == n && forall i :: 0 <= i < n ==> r[i] == 1
  {
    seq(n, i => 1)
  }

  /** The head axes and the columns a dense tensor gets from a shape request, or nothing when it has another
      number of elements.
   */
  function Asked(head: seq<nat>, cols: nat, dims: seq<int>): (r: Option<seq<nat>>)
    ensures r.Some? ==> |r.value| >= 2
  {
    if |dims| < 2 then None
    else
      var e := Expanded(dims, Count(head + [cols]));
      if e.None? || |e.value| < 2 || !NonNegative(e.value) then None
      else Some(Extents(e.value))
  }

  /** No more than one extent is left to be inferred. */
  predicate OneInferred(dims: seq<int>) {
    forall i, j :: 0 <= i < j < |dims| ==> dims[i] != -1 || dims[j] != -1
  }

  /** `reshape` of a dense tensor to two axes or more, which infers one extent at most. */
  function DenseReshape(w: Tensor, dims: seq<int>): Option<Tensor>
    requires w.Valid()
  {
    var e := Asked(w.head, w.cols, dims);
    if !OneInferred(dims) then None
    else if e.None? || !SameCount(w, Lead(e.value), Row(e.value)) then None
    else Some(Reshaped(w, Lead(e.value), Row(e.value)))
  }

  /** `self.reshape(*dims)` */
  function Reshape(p: Lora, dims: seq<int>): Option<Lora>
    requires WellFormed(p)
  {
    var e := Asked(p.b.head, p.a.cols, dims);
    if e.None? || Row(e.value) != p.a.cols then None
    else
      var headA, headB := Ones(|e.value| - 2) + [p.b.cols], Lead(e.value);
      if !SameCount(p.a, headA, p.a.cols) || !SameCount(p.b, headB, p.b.cols) then None
      else Checked(Reshaped(p.a, headA, p.a.cols), Reshaped(p.b, headB, p.b.cols))
  }

  lemma {:induction false} CountOnes(n: nat)
    ensures Count(Ones(n)) == 1
  {
    if n > 0 {
      assert Ones(n)[1..] == Ones(n - 1);
      CountOnes(n - 1);
    }
  }

  /** A product of extents is one only when each of them is. */
  lemma {:induction false} CountOne(shape: seq<nat>)
    ensures Count(shape) == 1 <==> forall i :: 0 <= i < |shape| ==> shape[i] == 1
    decreases shape
  {
    if shape != [] {
      CountOne(shape[1..]);
      Factors(shape[0], Count(shape[1..]));
      if Count(shape) == 1 {
        forall i | 0 <= i < |shape| ensures shape[i] == 1 {
          assert i > 0 ==> shape[i] == shape[1..][i - 1];
        }
      }
    }
  }

  lemma Factors(x: nat, y: nat)
    ensures x * y == 1 <==> x == 1 && y == 1
  {
    if x >= 2 && y >= 1 {
      MulMono(1, y, x);
      assert y * x == x * y;
    }
  }

  lemma FlatOnes(n: nat, r: nat, rank: nat, h: Index)
    requires |h| == n && forall i :: 0 <= i < n ==> h[i] == 0
    ensures Flat(Ones(n) + [rank], h + [r]) == r
  {
    FlatAppend(Ones(n), h, rank, r);
    FlatZeros(Ones(n), h);
  }

  lemma {:induction false} FlatZeros(shape: seq<nat>, h: Index)
    requires |h| == |shape| && forall i :: 0 <= i < |h| ==> h[i] == 0
    ensures Flat(shape, h) == 0
    decreases shape
  {
    if shape != [] {
      FlatZeros(shape[1..], h[1..]);
    }
  }

  /** A reshaped to leading extents of one keeps its rows where its own leading extents are ones. */
  lemma ReshapedA(p: Lora, n: nat, z: Index, r: nat, j: nat)
    requires WellFormed(p) && j < p.a.cols && r < p.b.cols && |z| == n && forall i :: 0 <= i < n ==> z[i] == 0
    requires SameCount(p.a, Ones(n) + [p.b.cols], p.a.cols)
    requires forall i :: 0 <= i < |Lead(p.a.head)| ==> Lead(p.a.head)[i] == 1
    ensures Reshaped(p.a, Ones(n) + [p.b.cols], p.a.cols).At(z + [r], j) == p.a.At(Bcast(Lead(p.a.head), Zeros(|p.a.head| - 1)) + [r], j)
  {
    hide Flat, Unflat, Count, Reshaped, Bcast;
    var la, rank := Lead(p.a.head), p.b.cols;
    var k := |la|;
    FlatOnes(n, r, rank, z);
    assert la == Ones(k) && p.a.head == Ones(k) + [rank];
    FlatOnes(k, r, rank, Zeros(k));
    assert In(z + [r], Ones(n) + [rank]) && In(Zeros(k) + [r], Ones(k) + [rank]);
    ReshapedAt(p.a, Ones(n) + [rank], z + [r], j);
    FlatIn(Ones(k) + [rank], Zeros(k) + [r]);
    BcastOnes(la, Zeros(k));
  }

  function Zeros(n: nat): (r: Index)
    ensures |r| == n && forall i :: 0 <= i < n ==> r[i] == 0
  {
    seq(n, i => 0)
  }

  lemma BcastOnes(la: seq<nat>, h: Index)
    requires |h| == |la| && forall i :: 0 <= i < |la| ==> la[i] == 1
    ensures Bcast(la, h) == Zeros(|la|)
  {
  }

  predicate AllOnes(s: seq<nat>) {
    forall i :: 0 <= i < |s| ==> s[i] == 1
  }

  /** The factors can be reshaped when the last extent is kept, B's rows are as many as before, and A has
      no leading extent but one (or no elements at all).
   */
  lemma ReshapeSome(p: Lora, dims: seq<int>)
    requires WellFormed(p)
    ensures var e := Asked(p.b.head, p.a.cols, dims);
      Reshape(p, dims).Some? <==>
        && e.Some? && Row(e.value) == p.a.cols && Count(Lead(e.value)) == Count(p.b.head)
        && (p.a.cols == 0 || AllOnes(Lead(p.a.head)))
  {
    hide Asked, Reshaped, Count;
    var e := Asked(p.b.head, p.a.cols, dims);
    if e.Some? && Row(e.value) == p.a.cols {
      SameRows(p.b, Lead(e.value));
      SameLead(p.a, |e.value| - 2, p.b.cols);
    }
  }

  lemma SameRows(t: Tensor, head: seq<nat>)
    requires t.cols > 0
    ensures SameCount(t, head, t.cols) <==> Count(head) == Count(t.head)
  {
    CountAppend(head, t.cols);
    CountAppend(t.head, t.cols);
    if Count(head) * t.cols == Count(t.head) * t.cols {
      Cancel(Count(head), Count(t.head), t.cols);
    }
  }

  lemma SameLead(t: Tensor, n: nat, rank: nat)
    requires t.head != [] && Row(t.head) == rank > 0
    ensures SameCount(t, Ones(n) + [rank], t.cols) <==> t.cols == 0 || AllOnes(Lead(t.head))
  {
    hide Count;
    CountAppend(Ones(n) + [rank], t.cols);
    CountAppend(t.head, t.cols);
    CountAppend(Ones(n), rank);
    assert Lead(t.head) + [rank] == t.head;
    CountAppend(Lead(t.head), rank);
    CountOnes(n);
    CountOne(Lead(t.head));
    if t.cols == 0 {
      MulZero(Count(Ones(n) + [rank]), Count(t.head));
    } else {
      SameRows(t, Ones(n) + [rank]);
      if rank == Count(Lead(t.head)) * rank {
        Cancel(1, Count(Lead(t.head)), rank);
      }
    }
  }

  lemma MulZero(x: nat, y: nat)
    ensures x * 0 == y * 0
  {
  }

  /** Reshape commutes with the product, except that the pair lets several extents be inferred, each as one,
      where W raises.
   */
  lemma ReshapeFaithful(p: Lora, dims: seq<int>)
    requires WellFormed(p) && Reshape(p, dims).Some?
    ensures WellFormed(Reshape(p, dims).value)
    ensures DenseReshape(Materialized(p), dims) ==
            if OneInferred(dims) then Some(Materialized(Reshape(p, dims).value)) else None
  {
    hide Asked, Reshaped, Count, Materialized, OneInferred;
    ReshapeSome(p, dims);
    var e := Asked(p.b.head, p.a.cols, dims).value;
    var q, w := Reshape(p, dims).value, Materialized(p);
    ReshapeWellFormed(p, dims);
    CountAppend(Lead(e), p.a.cols);
    CountAppend(p.b.head, p.a.cols);
    assert SameCount(w, Lead(e), p.a.cols);
    var t := Reshaped(w, Lead(e), p.a.cols);
    forall h: Index, j: nat | In(h, q.b.head) && j < q.a.cols ensures Materialized(q).At(h, j) == t.At(h, j) {
      ReshapeEntry(p, dims, h, j);
    }
    SameTensor(Materialized(q), t);
  }

  lemma ReshapeWellFormed(p: Lora, dims: seq<int>)
    requires WellFormed(p) && Reshape(p, dims).Some?
    ensures var e, q := Asked(p.b.head, p.a.cols, dims).value, Reshape(p, dims).value;
      && WellFormed(q) && q.b.cols == p.b.cols && q.a.cols == p.a.cols && q.b.head == Lead(e)
      && Lead(q.a.head) == Ones(|e| - 2)
  {
    hide Asked, Reshaped, Count;
    var e, q := Asked(p.b.head, p.a.cols, dims).value, Reshape(p, dims).value;
    assert Lead(q.a.head) == Ones(|e| - 2);
  }

  lemma ReshapeEntry(p: Lora, dims: seq<int>, h: Index, j: nat)
    requires WellFormed(p) && Reshape(p, dims).Some? && WellFormed(Reshape(p, dims).value)
    requires In(h, Reshape(p, dims).value.b.head) && j < p.a.cols
    requires SameCount(Materialized(p), Lead(Asked(p.b.head, p.a.cols, dims).value), p.a.cols)
    ensures Materialized(Reshape(p, dims).value).At(h, j)
         == Reshaped(Materialized(p), Lead(Asked(p.b.head, p.a.cols, dims).value), p.a.cols).At(h, j)
  {
    hide Asked, Reshaped, Count, Materialized, Flat, Unflat, Bcast;
    ReshapeSome(p, dims);
    var e, q := Asked(p.b.head, p.a.cols, dims).value, Reshape(p, dims).value;
    ReshapeWellFormed(p, dims);
    ReshapedAt(Materialized(p), Lead(e), h, j);
    var g := Unflat(p.b.head, Flat(Lead(e), h));
    forall r: nat | r < p.b.cols
      ensures q.b.At(h, r) == p.b.At(g, r)
      ensures q.a.At(Bcast(Lead(q.a.head), Lead(h)) + [r], j) == p.a.At(Bcast(Lead(p.a.head), Lead(g)) + [r], j)
    {
      ReshapedAt(p.b, Lead(e), h, r);
      BcastOnes(Lead(q.a.head), Lead(h));
      BcastOnes(Lead(p.a.head), Lead(g));
      BcastOnes(Lead(p.a.head), Zeros(|p.a.head| - 1));
      ReshapedA(p, |e| - 2, Zeros(|e| - 2), r, j);
    }
    SameEntry(p, g, j, q, h, j);
  }

  // ---------- permute ----------

  /** The axes named by a list that may count from the end, each once. */
  function Axes(dims: seq<int>, n: nat): (r: Option<seq<nat>>)
    ensures r.Some? ==> Permutes(r.value, n)
  {
    if |dims| != n || exists i :: 0 <= i < n && !(0 <= dims[i] + n && dims[i] < n) then None
    else
      var axes := seq(n, i requires 0 <= i < n => (if dims[i] < 0 then dims[i] + n else dims[i]) as nat);
      if Permutes(axes, n) then Some(axes) else None
  }

  /** The same list counted from the end. */
  function FromEnd(dims: seq<int>, n: nat): (r: seq<int>)
    ensures |r| == |dims| && forall i :: 0 <= i < |dims| ==> r[i] == if dims[i] >= 0 then dims[i] - n else dims[i]
  {
    seq(|dims|, i requires 0 <= i < |dims| => if dims[i] >= 0 then dims[i] - n else dims[i])
  }

  /** `self.permute(*dims)` */
  function Permute(p: Lora, dims: seq<int>): Option<Lora>
    requires WellFormed(p)
  {
    var n := |p.b.head| + 1;
    var ends := FromEnd(dims, n);
    var axes := Axes(ends, n);
    if ends == [] then None
    else if ends[|ends| - 1] == -1 then
      if !AllOnes(Lead(p.a.head)) || axes.None? then None
      else Checked(p.a, Permuted(p.b, axes.value))
    else if n == 2 && |ends| >= 2 && ends[|ends| - 1] == -2 && ends[|ends| - 2] == -1 then
      if axes.None? then None
      else Checked(Permuted(p.b, axes.value), Permuted(p.a, axes.value))
    else None
  }

  lemma FromEndAxes(dims: seq<int>, n: nat)
    requires Axes(dims, n).Some?
    ensures Axes(FromEnd(dims, n), n) == Axes(dims, n)
  {
    var axes := Axes(dims, n).value;
    var r := FromEnd(dims, n);
    var other := seq(n, i requires 0 <= i < n => if r[i] < 0 then r[i] + n else r[i]);
    assert other == axes;
  }

  /** Where W's axes can be permuted, the pair's can when the last axis stays and A is broadcast throughout,
      or when a two-axis weight is transposed.
   */
  lemma PermuteSome(p: Lora, dims: seq<int>)
    requires WellFormed(p) && Axes(dims, |p.b.head| + 1).Some?
    ensures var n, axes := |p.b.head| + 1, Axes(dims, |p.b.head| + 1).value;
      Permute(p, dims).Some? <==> (axes[n - 1] == n - 1 && AllOnes(Lead(p.a.head))) || (n == 2 && axes == [1, 0])
  {
    hide Permuted, Axes, FromEnd;
    var n, axes := |p.b.head| + 1, Axes(dims, |p.b.head| + 1).value;
    FromEndAxes(dims, n);
    LastOfEnds(dims, n);
    if axes[n - 1] == n - 1 {
      LastKept(p.b, axes);
    } else if n == 2 {
      TwoEnds(dims);
      Transposed2(p.b, axes);
      Transposed2(p.a, axes);
    }
  }

  lemma LastOfEnds(dims: seq<int>, n: nat)
    requires n >= 2 && Axes(dims, n).Some?
    ensures |FromEnd(dims, n)| == n && (Axes(dims, n).value[n - 1] == n - 1 <==> FromEnd(dims, n)[n - 1] == -1)
  {
  }

  lemma TwoEnds(dims: seq<int>)
    requires Axes(dims, 2).Some? && Axes(dims, 2).value[1] != 1
    ensures Axes(dims, 2).value == [1, 0] && FromEnd(dims, 2) == [-1, -2]
  {
    assert Axes(dims, 2).value[0] != Axes(dims, 2).value[1];
  }

  lemma LastKept(t: Tensor, axes: seq<nat>)
    requires t.Valid() && Permutes(axes, |t.head| + 1) && axes[|t.head|] == |t.head|
    ensures |Permuted(t, axes).head| == |t.head| && Permuted(t, axes).cols == t.cols
    ensures forall i :: 0 <= i < |t.head| ==> axes[i] < |t.head| && Permuted(t, axes).head[i] == t.head[axes[i]]
  {
    var u := Permuted(t, axes);
    var shape := PermutedShape(t.head + [t.cols], axes);
    assert u.head + [u.cols] == shape && shape[|t.head|] == t.cols && u.cols == shape[|t.head|];
    forall i | 0 <= i < |t.head| ensures axes[i] < |t.head| && u.head[i] == t.head[axes[i]] {
      assert axes[i] != axes[|t.head|] && u.head[i] == shape[i];
    }
  }

  lemma Transposed2(t: Tensor, axes: seq<nat>)
    requires t.Valid() && |t.head| == 1 && axes == [1, 0] && Permutes(axes, 2)
    ensures Permuted(t, axes).head == [t.cols] && Permuted(t, axes).cols == t.head[0]
  {
    var u := Permuted(t, axes);
    var shape := PermutedShape(t.head + [t.cols], axes);
    assert u.head + [u.cols] == shape && shape[0] == t.cols && shape[1] == t.head[0];
    assert u.head == shape[..1] && u.cols == shape[1];
  }

  lemma Transposed2At(t: Tensor, i: nat, j: nat)
    requires t.Valid() && |t.head| == 1 && i < t.head[0] && j < t.cols && Permutes([1, 0], 2)
    ensures Permuted(t, [1, 0]).At([j], i) == t.At([i], j)
  {
    hide Permuted;
    Transposed2(t, [1, 0]);
    assert [i] + [j] == [i, j] && [j] + [i] == [j, i];
    PermutedAt(t, [1, 0], [j], i, [i], j);
  }

  /** Where the element at head index `h` of the permuted tensor comes from. */
  function Came(axes: seq<nat>, h: Index): (g: Index)
    requires Permutes(axes, |h| + 1) && axes[|h|] == |h|
    ensures |g| == |h| && forall i :: 0 <= i < |h| ==> axes[i] < |h| && g[axes[i]] == h[i]
  {
    var src := Unpermuted(axes, h + [0]);
    assert forall i :: 0 <= i < |h| ==> axes[i] < |h| && src[..|h|][axes[i]] == h[i] by {
      forall i | 0 <= i < |h| ensures axes[i] < |h| && src[..|h|][axes[i]] == h[i] {
        assert axes[i] != axes[|h|] && src[axes[i]] == (h + [0])[i];
      }
    }
    src[..|h|]
  }

  lemma KeptAt(t: Tensor, axes: seq<nat>, h: Index, j: nat)
    requires t.Valid() && Permutes(axes, |t.head| + 1) && axes[|t.head|] == |t.head| && |h| == |t.head|
    requires In(h, Permuted(t, axes).head) && j < t.cols
    ensures Permuted(t, axes).At(h, j) == t.At(Came(axes, h), j) && In(Came(axes, h), t.head)
  {
    hide Permuted, Came;
    LastKept(t, axes);
    var g := Came(axes, h);
    forall i | 0 <= i <= |g| ensures (g + [j])[axes[i]] == (h + [j])[i] {
      assert i < |g| ==> axes[i] < |g| && g[axes[i]] == h[i];
    }
    PermutedAt(t, axes, h, j, g, j);
  }

  /** Permuting commutes with the product. */
  lemma PermuteFaithful(p: Lora, dims: seq<int>)
    requires WellFormed(p) && Axes(dims, |p.b.head| + 1).Some? && Permute(p, dims).Some?
    ensures WellFormed(Permute(p, dims).value)
    ensures Materialized(Permute(p, dims).value) == Permuted(Materialized(p), Axes(dims, |p.b.head| + 1).value)
  {
    hide Permuted, Axes, Materialized, WellFormed;
    PermuteSome(p, dims);
    FromEndAxes(dims, |p.b.head| + 1);
    var axes := Axes(dims, |p.b.head| + 1).value;
    if axes[|p.b.head|] == |p.b.head| {
      LastOfEnds(dims, |p.b.head| + 1);
      KeptFaithful(p, axes);
    } else {
      LastOfEnds(dims, |p.b.head| + 1);
      TransposedFaithful(p);
    }
  }

  lemma KeptFaithful(p: Lora, axes: seq<nat>)
    requires WellFormed(p) && Permutes(axes, |p.b.head| + 1) && axes[|p.b.head|] == |p.b.head| && AllOnes(Lead(p.a.head))
    ensures WellFormed(Lora(p.a, Permuted(p.b, axes)))
    ensures Materialized(Lora(p.a, Permuted(p.b, axes))) == Permuted(Materialized(p), axes)
  {
    hide Permuted, Materialized;
    var q := Lora(p.a, Permuted(p.b, axes));
    LastKept(p.b, axes);
    LastKept(Materialized(p), axes);
    var t := Permuted(Materialized(p), axes);
    assert q.b.head == t.head;
    forall h: Index, j: nat | In(h, q.b.head) && j < q.a.cols ensures Materialized(q).At(h, j) == t.At(h, j) {
      KeptEntry(p, axes, h, j);
    }
    SameTensor(Materialized(q), t);
  }

  lemma KeptEntry(p: Lora, axes: seq<nat>, h: Index, j: nat)
    requires WellFormed(p) && Permutes(axes, |p.b.head| + 1) && axes[|p.b.head|] == |p.b.head| && AllOnes(Lead(p.a.head))
    requires WellFormed(Lora(p.a, Permuted(p.b, axes)))
    requires In(h, Permuted(p.b, axes).head) && j < p.a.cols && Permuted(p.b, axes).head == Permuted(Materialized(p), axes).head
    ensures Materialized(Lora(p.a, Permuted(p.b, axes))).At(h, j) == Permuted(Materialized(p), axes).At(h, j)
  {
    hide Permuted, Materialized, Came, Bcast;
    LastKept(p.b, axes);
    var q, g := Lora(p.a, Permuted(p.b, axes)), Came(axes, h);
    KeptAt(Materialized(p), axes, h, j);
    forall r: nat | r < p.b.cols
      ensures q.b.At(h, r) == p.b.At(g, r)
      ensures q.a.At(Bcast(Lead(q.a.head), Lead(h)) + [r], j) == p.a.At(Bcast(Lead(p.a.head), Lead(g)) + [r], j)
    {
      KeptAt(p.b, axes, h, r);
      BcastOnes(Lead(p.a.head), Lead(h));
      BcastOnes(Lead(p.a.head), Lead(g));
    }
    SameEntry(p, g, j, q, h, j);
  }

  /** The list with one turn taken off the entries that are beyond the axes. */
  function Reduced(dims: seq<int>, n: nat): (r: seq<int>)
    ensures |r| == |dims|
  {
    seq(|dims|, i requires 0 <= i < |dims| => if dims[i] >= n then dims[i] - n else dims[i])
  }

  lemma ReducedAxes(dims: seq<int>, n: nat)
    ensures Axes(Reduced(dims, n), n) == Axes(FromEnd(dims, n), n)
  {
    var r, e := Reduced(dims, n), FromEnd(dims, n);
    if |dims| == n {
      forall i | 0 <= i < n ensures (0 <= r[i] + n && r[i] < n) <==> (0 <= e[i] + n && e[i] < n) {
      }
      if forall i :: 0 <= i < n ==> 0 <= r[i] + n && r[i] < n {
        var a := seq(n, i requires 0 <= i < n => (if r[i] < 0 then r[i] + n else r[i]) as nat);
        var b := seq(n, i requires 0 <= i < n => (if e[i] < 0 then e[i] + n else e[i]) as nat);
        assert a == b;
      }
    }
  }

  /** Of the lists that W refuses the pair accepts exactly those that some entries of one turn too much keep from
      being a permutation, where the last axis stays and A is broadcast throughout; it permutes by the reduced list.
   */
  lemma PermuteRefused(p: Lora, dims: seq<int>)
    requires WellFormed(p) && Axes(dims, |p.b.head| + 1).None?
    ensures var n := |p.b.head| + 1;
      Permute(p, dims).Some? <==>
        Axes(Reduced(dims, n), n).Some? && (dims[n - 1] == n - 1 || dims[n - 1] == -1) && AllOnes(Lead(p.a.head))
    ensures Permute(p, dims).Some? ==>
              var axes := Axes(Reduced(dims, |p.b.head| + 1), |p.b.head| + 1);
              && axes.Some? && WellFormed(Permute(p, dims).value)
              && Materialized(Permute(p, dims).value) == Permuted(Materialized(p), axes.value)
  {
    hide Permuted, Axes, Materialized;
    var n := |p.b.head| + 1;
    var ends := FromEnd(dims, n);
    ReducedAxes(dims, n);
    RefusedTwo(dims);
    AxesLength(ends, n);
    if Axes(ends, n).Some? && ends[n - 1] == -1 && AllOnes(Lead(p.a.head)) {
      LastAxis(ends, n);
      KeptWellFormed(p, Axes(ends, n).value);
      KeptFaithful(p, Axes(ends, n).value);
    }
  }

  lemma AxesLength(dims: seq<int>, n: nat)
    ensures Axes(dims, n).Some? ==> |dims| == n
  {
  }

  lemma LastAxis(dims: seq<int>, n: nat)
    requires n >= 1 && Axes(dims, n).Some? && |dims| == n && dims[n - 1] == -1
    ensures Axes(dims, n).value[n - 1] == n - 1
  {
  }

  lemma KeptWellFormed(p: Lora, axes: seq<nat>)
    requires WellFormed(p) && Permutes(axes, |p.b.head| + 1) && axes[|p.b.head|] == |p.b.head|
    ensures Checked(p.a, Permuted(p.b, axes)) == Some(Lora(p.a, Permuted(p.b, axes)))
  {
    hide Permuted;
    LastKept(p.b, axes);
  }

  /** A list that transposes two axes is one that W accepts. */
  lemma RefusedTwo(dims: seq<int>)
    ensures FromEnd(dims, 2) == [-1, -2] ==> Axes(dims, 2).Some?
  {
    if FromEnd(dims, 2) == [-1, -2] {
      var e := FromEnd(dims, 2);
      assert e[0] == -1 && e[1] == -2;
      var axes := seq(2, i requires 0 <= i < 2 => (if dims[i] < 0 then dims[i] + 2 else dims[i]) as nat);
      assert axes == [1, 0];
    }
  }

  /** The transpose of B @ A is the transpose of A times the transpose of B. */
  lemma TransposedFaithful(p: Lora)
    requires WellFormed(p) && |p.b.head| == 1 && Permutes([1, 0], 2)
    ensures WellFormed(TransposedPair(p))
    ensures Materialized(TransposedPair(p)) == Permuted(Materialized(p), [1, 0])
  {
    hide Permuted, Materialized;
    var q, t := TransposedPair(p), Permuted(Materialized(p), [1, 0]);
    TransposedWellFormed(p);
    Transposed2(Materialized(p), [1, 0]);
    forall h: Index, j: nat | In(h, q.b.head) && j < q.a.cols ensures Materialized(q).At(h, j) == t.At(h, j) {
      assert h == [h[0]];
      TransposedEntry(p, h[0], j);
    }
    SameTensor(Materialized(q), t);
  }

  function TransposedPair(p: Lora): Lora
    requires WellFormed(p) && |p.b.head| == 1 && Permutes([1, 0], 2)
  {
    Lora(Permuted(p.b, [1, 0]), Permuted(p.a, [1, 0]))
  }

  lemma TransposedWellFormed(p: Lora)
    requires WellFormed(p) && |p.b.head| == 1 && Permutes([1, 0], 2)
    ensures var q := TransposedPair(p);
      WellFormed(q) && q.b.head == [p.a.cols] && q.a.cols == p.b.head[0] && q.a.head == [p.b.cols] && q.b.cols == p.b.cols
  {
    hide Permuted;
    Transposed2(p.a, [1, 0]);
    Transposed2(p.b, [1, 0]);
  }

  lemma TransposedEntry(p: Lora, i: nat, j: nat)
    requires WellFormed(p) && |p.b.head| == 1 && Permutes([1, 0], 2) && i < p.a.cols && j < p.b.head[0]
    ensures WellFormed(TransposedPair(p))
    ensures Materialized(TransposedPair(p)).At([i], j) == Permuted(Materialized(p), [1, 0]).At([i], j)
  {
    hide Permuted, Materialized, Term, TransposedPair, Product;
    var q := TransposedPair(p);
    TransposedWellFormed(p);
    Transposed2At(Materialized(p), j, i);
    MaterializedAt(p, [j], i);
    MaterializedAt(q, [i], j);
    forall r: nat | r < p.b.cols ensures Term(p, [j], i, r) == Term(q, [i], j, r) {
      TransposedTerm(p, i, j, r);
    }
    SameProduct(p, [j], i, q, [i], j, p.b.cols);
  }

  lemma TransposedTerm(p: Lora, i: nat, j: nat, r: nat)
    requires WellFormed(p) && |p.b.head| == 1 && Permutes([1, 0], 2) && i < p.a.cols && j < p.b.head[0] && r < p.b.cols
    requires TransposedPair(p).a.head == [p.b.cols]
    ensures Term(p, [j], i, r) == Term(TransposedPair(p), [i], j, r)
  {
    hide Permuted, Bcast;
    var q := TransposedPair(p);
    Transposed2At(p.a, r, i);
    Transposed2At(p.b, j, r);
    BcastNone([]);
    TermFactors(p, [j], i, r);
    TermFactors(q, [i], j, r);
    assert [] + [r] == [r];
  }
}
