/** Row-major indexing, and the two operations that only rename indices: reshape and permute. */
module RowMajor {
  import opened Counting
  import opened Tensors

  function Count(shape: seq<nat>): nat {
    if shape == [] then 1 else shape[0] * Count(shape[1..])
  }

  function Flat(shape: seq<nat>, idx: Index): nat
    requires |idx| == |shape|
  {
    if shape == [] then 0 else idx[0] * Count(shape[1..]) + Flat(shape[1..], idx[1..])
  }

  function Unflat(shape: seq<nat>, k: nat): (r: Index)
    ensures |r| == |shape|
  {
    if shape == [] then []
    else
      var c := Count(shape[1..]);
      if c == 0 then [0] + Unflat(shape[1..], 0) else [k / c] + Unflat(shape[1..], k % c)
  }

  lemma RowBound(i: nat, n: nat, c: nat, f: nat)
    requires i < n && f < c
    ensures i * c + f < n * c && (i * c + f) / c == i && (i * c + f) % c == f
  {
    assert n * c == i * c + c + (n - i - 1) * c;
    Quotient(i, c, f);
  }

  lemma MulMono(a: nat, b: nat, c: nat)
    requires a <= b
    ensures a * c <= b * c
  {
    assert b * c == a * c + (b - a) * c;
  }

  lemma MulLess(a: nat, b: nat, c: nat)
    requires a < b && c > 0
    ensures a * c < b * c
  {
    MulMono(a + 1, b, c);
    assert (a + 1) * c == a * c + c;
  }

  lemma SameQuotient(i: nat, q: nat, c: nat, f: nat, r: nat)
    requires f < c && r < c && i * c + f == q * c + r
    ensures i == q && f == r
  {
    if i < q {
      assert (i + 1) * c == i * c + c;
      MulMono(i + 1, q, c);
    } else if q < i {
      assert (q + 1) * c == q * c + c;
      MulMono(q + 1, i, c);
    }
  }

  lemma Quotient(i: nat, c: nat, f: nat)
    requires f < c
    ensures (i * c + f) / c == i && (i * c + f) % c == f
  {
    var k := i * c + f;
    assert k == k / c * c + k % c;
    SameQuotient(i, k / c, c, f, k % c);
  }

  lemma {:induction false} FlatIn(shape: seq<nat>, idx: Index)
    requires In(idx, shape)
    ensures Flat(shape, idx) < Count(shape)
    ensures Unflat(shape, Flat(shape, idx)) == idx
    decreases shape
  {
    if shape != [] {
      FlatIn(shape[1..], idx[1..]);
      RowBound(idx[0], shape[0], Count(shape[1..]), Flat(shape[1..], idx[1..]));
    }
  }

  lemma {:induction false} UnflatIn(shape: seq<nat>, k: nat)
    requires k < Count(shape)
    ensures In(Unflat(shape, k), shape) && Flat(shape, Unflat(shape, k)) == k
    decreases shape
  {
    if shape != [] {
      var c := Count(shape[1..]);
      QuotientIn(k, shape[0], c);
      UnflatIn(shape[1..], k % c);
    }
  }

  lemma QuotientIn(k: nat, n: nat, c: nat)
    requires k < n * c
    ensures c > 0 && k / c < n && k == k / c * c + k % c
  {
    assert c > 0;
    if k / c >= n {
      MulMono(n, k / c, c);
    }
  }

  lemma {:induction false} CountAppend(shape: seq<nat>, n: nat)
    ensures Count(shape + [n]) == Count(shape) * n
    decreases shape
  {
    if shape == [] {
      assert (shape + [n])[1..] == [];
    } else {
      assert (shape + [n])[1..] == shape[1..] + [n];
      CountAppend(shape[1..], n);
      assert shape[0] * (Count(shape[1..]) * n) == shape[0] * Count(shape[1..]) * n;
    }
  }

  lemma {:induction false} FlatAppend(shape: seq<nat>, h: Index, n: nat, j: nat)
    requires |h| == |shape|
    ensures Flat(shape + [n], h + [j]) == Flat(shape, h) * n + j
    decreases shape
  {
    if shape == [] {
      assert (shape + [n])[1..] == [] && (h + [j])[1..] == [];
    } else {
      assert (shape + [n])[1..] == shape[1..] + [n] && (h + [j])[1..] == h[1..] + [j];
      FlatAppend(shape[1..], h[1..], n, j);
      CountAppend(shape[1..], n);
      Distribute(h[0], Count(shape[1..]), Flat(shape[1..], h[1..]), n);
    }
  }

  lemma Distribute(x: nat, c: nat, f: nat, n: nat)
    ensures x * (c * n) + (f * n) == (x * c + f) * n
  {
    assert x * (c * n) == x * c * n;
  }

  lemma UnflatAppend(shape: seq<nat>, n: nat, k: nat, j: nat)
    requires k < Count(shape) && j < n
    ensures Unflat(shape + [n], k * n + j) == Unflat(shape, k) + [j]
  {
    hide Unflat, Flat, Count;
    UnflatIn(shape, k);
    var idx := Unflat(shape, k) + [j];
    assert In(idx, shape + [n]);
    FlatAppend(shape, Unflat(shape, k), n, j);
    FlatIn(shape + [n], idx);
  }

  // ---------- reshape ----------

  predicate SameCount(t: Tensor, head: seq<nat>, cols: nat) {
    Count(head + [cols]) == Count(t.head + [t.cols])
  }

  /** Elements in the same row-major order, under another shape. */
  function Reshaped(t: Tensor, head: seq<nat>, cols: nat): (r: Tensor)
    requires t.Valid() && head != [] && SameCount(t, head, cols)
    ensures r.Valid() && r.head == head && r.cols == cols
  {
    Build(head, cols, (h: Index, j: nat) =>
      if |h| != |head| then 0.0
      else
        var src := Unflat(t.head + [t.cols], Flat(head + [cols], h + [j]));
        t.At(src[..|t.head|], src[|t.head|]))
  }

  /** When the last extent is kept only the other axes are renamed. */
  lemma ReshapedAt(t: Tensor, head: seq<nat>, h: Index, j: nat)
    requires t.Valid() && head != [] && SameCount(t, head, t.cols) && In(h, head) && j < t.cols
    ensures Count(head) == Count(t.head) && Flat(head, h) < Count(t.head)
    ensures In(Unflat(t.head, Flat(head, h)), t.head)
    ensures Reshaped(t, head, t.cols).At(h, j) == t.At(Unflat(t.head, Flat(head, h)), j)
  {
    hide Unflat, Flat, Count;
    CountAppend(head, t.cols);
    CountAppend(t.head, t.cols);
    Cancel(Count(head), Count(t.head), t.cols);
    FlatIn(head, h);
    FlatAppend(head, h, t.cols, j);
    var k := Flat(head, h);
    UnflatAppend(t.head, t.cols, k, j);
    UnflatIn(t.head, k);
    assert (Unflat(t.head, k) + [j])[..|t.head|] == Unflat(t.head, k);
  }

  lemma Cancel(x: nat, y: nat, n: nat)
    requires n > 0 && x * n == y * n
    ensures x == y
  {
    if x < y {
      MulLess(x, y, n);
    } else if y < x {
      MulLess(y, x, n);
    }
  }

  /** Reshaping back gives the tensor again. */
  lemma ReshapedBack(t: Tensor, head: seq<nat>)
    requires t.Valid() && head != [] && SameCount(t, head, t.cols)
    ensures Reshaped(Reshaped(t, head, t.cols), t.head, t.cols) == t
  {
    hide Unflat, Flat, Count, Reshaped;
    var u := Reshaped(t, head, t.cols);
    var v := Reshaped(u, t.head, t.cols);
    forall h: Index, j: nat | In(h, t.head) && j < t.cols ensures v.At(h, j) == t.At(h, j) {
      ReshapedAt(u, t.head, h, j);
      var g := Unflat(head, Flat(t.head, h));
      ReshapedAt(t, head, g, j);
      UnflatIn(head, Flat(t.head, h));
      FlatIn(t.head, h);
    }
    SameTensor(v, t);
  }

  // ---------- permute ----------

  predicate Permutes(axes: seq<nat>, n: nat) {
    && |axes| == n
    && (forall i :: 0 <= i < n ==> axes[i] < n)
    && forall i, j :: 0 <= i < j < n ==> axes[i] != axes[j]
  }

  /** Distinct axes are all the axes. */
  lemma Onto(axes: seq<nat>, n: nat, k: nat)
    requires Permutes(axes, n) && k < n
    ensures k in axes
  {
    DistinctCount(axes);
    if k !in axes {
      assert Elements(axes) <= Below(n) - {k};
      Smaller(Elements(axes), Below(n) - {k});
    }
  }

  function Position(axes: seq<nat>, k: nat): (i: nat)
    requires k in axes
    ensures i < |axes| && axes[i] == k
  {
    if axes[0] == k then 0 else 1 + Position(axes[1..], k)
  }

  /** The index whose permutation by `axes` is `idx`. */
  function Unpermuted(axes: seq<nat>, idx: Index): (r: Index)
    requires Permutes(axes, |idx|)
    ensures |r| == |idx| && forall i :: 0 <= i < |idx| ==> r[axes[i]] == idx[i]
  {
    var r := seq(|idx|, k requires 0 <= k < |idx| => Onto(axes, |idx|, k); idx[Position(axes, k)]);
    assert forall i :: 0 <= i < |idx| ==> r[axes[i]] == idx[i] by {
      forall i | 0 <= i < |idx| ensures r[axes[i]] == idx[i] {
        Onto(axes, |idx|, axes[i]);
        assert axes[Position(axes, axes[i])] == axes[i];
      }
    }
    r
  }

  function PermutedShape(shape: seq<nat>, axes: seq<nat>): (r: seq<nat>)
    requires Permutes(axes, |shape|)
    ensures |r| == |shape|
  {
    seq(|shape|, i requires 0 <= i < |shape| => shape[axes[i]])
  }

  function PermutedValue(t: Tensor, axes: seq<nat>, h: Index, j: nat): real
    requires Permutes(axes, |t.head| + 1)
  {
    if |h| != |t.head| then 0.0
    else
      var src := Unpermuted(axes, h + [j]);
      t.At(src[..|t.head|], src[|t.head|])
  }

  /** Axis `i` of the result is axis `axes[i]` of the tensor. */
  function Permuted(t: Tensor, axes: seq<nat>): (r: Tensor)
    requires t.Valid() && Permutes(axes, |t.head| + 1)
    ensures r.Valid() && r.head + [r.cols] == PermutedShape(t.head + [t.cols], axes)
  {
    hide PermutedShape, PermutedValue;
    var shape := PermutedShape(t.head + [t.cols], axes);
    Build(shape[..|t.head|], shape[|t.head|], (h: Index, j: nat) => PermutedValue(t, axes, h, j))
  }

  lemma UnpermutedIs(axes: seq<nat>, idx: Index, src: Index)
    requires Permutes(axes, |idx|) && |src| == |idx|
    requires forall i :: 0 <= i < |idx| ==> src[axes[i]] == idx[i]
    ensures Unpermuted(axes, idx) == src
  {
    forall x | 0 <= x < |idx| ensures Unpermuted(axes, idx)[x] == src[x] {
      Onto(axes, |idx|, x);
      var i := Position(axes, x);
      assert axes[i] == x && src[axes[i]] == idx[i];
    }
  }

  lemma UnpermutedIn(axes: seq<nat>, idx: Index, shape: seq<nat>)
    requires Permutes(axes, |shape|) && In(idx, PermutedShape(shape, axes))
    ensures In(Unpermuted(axes, idx), shape)
  {
    var src := Unpermuted(axes, idx);
    forall x | 0 <= x < |idx| ensures src[x] < shape[x] {
      Onto(axes, |idx|, x);
      var i := Position(axes, x);
      assert axes[i] == x && src[axes[i]] == idx[i];
    }
  }

  lemma PermutedIs(t: Tensor, axes: seq<nat>, h: Index, j: nat)
    requires t.Valid() && Permutes(axes, |t.head| + 1)
    requires In(h, Permuted(t, axes).head) && j < Permuted(t, axes).cols
    ensures Permuted(t, axes).At(h, j) == PermutedValue(t, axes, h, j)
  {
    hide PermutedValue, PermutedShape, Tensor.At;
  }

  /** The element at an index is found where its coordinates came from. */
  lemma PermutedAt(t: Tensor, axes: seq<nat>, h: Index, j: nat, g: Index, k: nat)
    requires t.Valid() && Permutes(axes, |t.head| + 1)
    requires In(h, Permuted(t, axes).head) && j < Permuted(t, axes).cols
    requires |g| == |t.head| && forall i :: 0 <= i <= |g| ==> (g + [k])[axes[i]] == (h + [j])[i]
    ensures Permuted(t, axes).At(h, j) == t.At(g, k)
    ensures In(g, t.head) && k < t.cols
  {
    hide Unpermuted, PermutedShape, Tensor.At, Permutes;
    var shape := PermutedShape(t.head + [t.cols], axes);
    PermutedIs(t, axes, h, j);
    assert Permuted(t, axes).head + [Permuted(t, axes).cols] == shape;
    UnpermutedIs(axes, h + [j], g + [k]);
    assert In(h + [j], shape);
    UnpermutedIn(axes, h + [j], t.head + [t.cols]);
    var src := g + [k];
    assert src[..|t.head|] == g && src[|t.head|] == k;
    InParts(g, t.head, k, t.cols);
    assert shape[..|t.head|] == Permuted(t, axes).head && shape[|t.head|] == Permuted(t, axes).cols;
  }

  lemma InParts(h: Index, shape: seq<nat>, x: nat, n: nat)
    requires In(h + [x], shape + [n]) && |h| == |shape|
    ensures In(h, shape) && x < n
  {
    assert (h + [x])[|h|] < (shape + [n])[|h|];
    forall i | 0 <= i < |h| ensures h[i] < shape[i] {
      assert (h + [x])[i] < (shape + [n])[i];
    }
  }
}
