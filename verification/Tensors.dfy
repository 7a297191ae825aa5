/** Dense tensors of two or more axes, and the reindexing operations on them.

    A tensor is given by the extents of all axes but the last (`head`), the extent of the last
    (`cols`), and a value for every index.
 */
module Tensors {
  import opened Wrappers

  type Index = seq<nat>

  predicate In(idx: Index, shape: seq<nat>) {
    |idx| == |shape| && forall i :: 0 <= i < |idx| ==> idx[i] < shape[i]
  }

  function Indices(shape: seq<nat>): (r: set<Index>)
    ensures forall idx :: idx in r <==> In(idx, shape)
  {
    if shape == [] then {[]}
    else
      var r := set i: nat, rest | 0 <= i < shape[0] && rest in Indices(shape[1..]) :: [i] + rest;
      assert forall idx :: idx in r <==> In(idx, shape) by {
        forall idx ensures idx in r <==> In(idx, shape) {
          if In(idx, shape) {
            assert In(idx[1..], shape[1..]) && idx[1..] in Indices(shape[1..]);
            assert idx == [idx[0]] + idx[1..];
          }
          if idx in r {
            var i: nat, rest :| 0 <= i < shape[0] && rest in Indices(shape[1..]) && idx == [i] + rest;
          }
        }
      }
      r
  }

  datatype Tensor = Tensor(head: seq<nat>, cols: nat, data: map<(Index, nat), real>) {
    ghost predicate Valid() {
      head != [] && forall h: Index, j: nat :: (h, j) in data <==> In(h, head) && j < cols
    }

    /** The value at an index, and zero outside. */
    function At(h: Index, j: nat): real {
      if (h, j) in data then data[(h, j)] else 0.0
    }

    function Shape(): seq<nat> {
      head + [cols]
    }
  }

  function Build(head: seq<nat>, cols: nat, f: (Index, nat) -> real): (t: Tensor)
    requires head != []
    ensures t.Valid() && t.head == head && t.cols == cols
    ensures forall h: Index, j: nat :: In(h, head) && j < cols ==> t.At(h, j) == f(h, j)
  {
    var keys := set h: Index, j: nat | h in Indices(head) && 0 <= j < cols :: (h, j);
    Tensor(head, cols, map k | k in keys :: f(k.0, k.1))
  }

  /** Tensors of the same shape with the same values are equal. */
  lemma SameTensor(t: Tensor, u: Tensor)
    requires t.Valid() && u.Valid() && t.head == u.head && t.cols == u.cols
    requires forall h: Index, j: nat :: In(h, t.head) && j < t.cols ==> t.At(h, j) == u.At(h, j)
    ensures t == u
  {
    assert t.data.Keys == u.data.Keys by {
      forall k ensures k in t.data <==> k in u.data {
        assert k == (k.0, k.1);
      }
    }
    forall k | k in t.data ensures t.data[k] == u.data[k] {
      assert k == (k.0, k.1) && t.At(k.0, k.1) == u.At(k.0, k.1);
    }
  }

  // ---------- selection ----------

  /** One entry of an index expression: a position, or a slice with optional bounds. */
  datatype Entry = Pos(i: int) | Slice(lo: Option<int>, hi: Option<int>, step: nat)

  const FULL := Slice(None, None, 1)

  function Wrapped(i: int, n: nat): int {
    if i < 0 then i + n else i
  }

  function Clamped(i: int, n: nat): (r: nat)
    ensures r <= n
  {
    var w := Wrapped(i, n);
    if w < 0 then 0 else if w > n then n else w
  }

  predicate EntryOk(e: Entry, n: nat) {
    if e.Pos? then 0 <= e.i + n && e.i < n else e.step > 0
  }

  function First(e: Entry, n: nat): nat
    requires EntryOk(e, n)
  {
    if e.Pos? then Wrapped(e.i, n) else if e.lo.None? then 0 else Clamped(e.lo.value, n)
  }

  /** The number of positions a slice selects out of `n`. */
  function Length(e: Entry, n: nat): nat
    requires EntryOk(e, n) && e.Slice?
  {
    var end := if e.hi.None? then n else Clamped(e.hi.value, n);
    if First(e, n) >= end then 0 else (end - First(e, n) - 1) / e.step + 1
  }

  /** The position the `x`-th selected element comes from. */
  function Source(e: Entry, n: nat, x: nat): nat
    requires EntryOk(e, n)
  {
    if e.Pos? then First(e, n) else First(e, n) + x * e.step
  }

  lemma StepsWithin(d: nat, step: nat, x: nat)
    requires step > 0 && x <= d / step
    ensures x * step <= d
  {
    assert d / step * step <= d;
    assert x * step <= d / step * step;
  }

  lemma SourceIn(e: Entry, n: nat, x: nat)
    requires EntryOk(e, n) && (e.Slice? ==> x < Length(e, n))
    ensures Source(e, n, x) < n
  {
    if e.Slice? {
      var end := if e.hi.None? then n else Clamped(e.hi.value, n);
      StepsWithin(end - First(e, n) - 1, e.step, x);
    }
  }

  lemma FullSlice(n: nat)
    ensures EntryOk(FULL, n) && Length(FULL, n) == n && forall x: nat :: Source(FULL, n, x) == x
  {
  }

  /** A slice that selects as many elements as there are selects each of them in place. */
  lemma WholeSlice(e: Entry, n: nat, x: nat)
    requires EntryOk(e, n) && e.Slice? && Length(e, n) == n && x < n
    ensures Source(e, n, x) == x
  {
    SourceIn(e, n, n - 1);
    StepsApart(First(e, n), e.step, n - 1);
  }

  lemma StepsApart(first: nat, step: nat, last: nat)
    requires step > 0 && first + last * step <= last
    ensures first == 0 && (last == 0 || step == 1)
  {
    if step > 1 {
      assert last * step == last + last * (step - 1);
      assert last * (step - 1) >= last;
    }
  }

  predicate EntriesOk(shape: seq<nat>, es: seq<Entry>) {
    |es| == |shape| && forall i :: 0 <= i < |es| ==> EntryOk(es[i], shape[i])
  }

  function SelectedShape(shape: seq<nat>, es: seq<Entry>): (r: seq<nat>)
    requires EntriesOk(shape, es)
  {
    if shape == [] then []
    else (if es[0].Pos? then [] else [Length(es[0], shape[0])]) + SelectedShape(shape[1..], es[1..])
  }

  /** The index in the original tensor of the element at `h` of the selection. */
  function SourceIndex(shape: seq<nat>, es: seq<Entry>, h: Index): (r: Index)
    requires EntriesOk(shape, es) && |h| == |SelectedShape(shape, es)|
    ensures |r| == |shape|
  {
    if shape == [] then []
    else if es[0].Pos? then [First(es[0], shape[0])] + SourceIndex(shape[1..], es[1..], h)
    else [Source(es[0], shape[0], h[0])] + SourceIndex(shape[1..], es[1..], h[1..])
  }

  lemma {:induction false} SourceIndexIn(shape: seq<nat>, es: seq<Entry>, h: Index)
    requires EntriesOk(shape, es) && In(h, SelectedShape(shape, es))
    ensures In(SourceIndex(shape, es, h), shape)
    decreases shape
  {
    hide Source, Length;
    if shape != [] {
      if es[0].Pos? {
        SourceIn(es[0], shape[0], 0);
        assert First(es[0], shape[0]) < shape[0] by { PosFirst(es[0], shape[0]); }
        SourceIndexIn(shape[1..], es[1..], h);
      } else {
        SourceIn(es[0], shape[0], h[0]);
        SourceIndexIn(shape[1..], es[1..], h[1..]);
      }
    }
  }

  lemma PosFirst(e: Entry, n: nat)
    requires EntryOk(e, n) && e.Pos?
    ensures First(e, n) < n
  {
  }

  /** The tensor with the entries applied to the head axes and a slice applied to the last axis. */
  function Select(t: Tensor, es: seq<Entry>, last: Entry): (r: Tensor)
    requires t.Valid() && EntriesOk(t.head, es) && EntryOk(last, t.cols) && last.Slice?
    requires SelectedShape(t.head, es) != []
    ensures r.Valid() && r.head == SelectedShape(t.head, es) && r.cols == Length(last, t.cols)
  {
    Build(SelectedShape(t.head, es), Length(last, t.cols), (h: Index, j: nat) =>
      if |h| == |SelectedShape(t.head, es)| then t.At(SourceIndex(t.head, es, h), Source(last, t.cols, j)) else 0.0)
  }

  lemma SelectAt(t: Tensor, es: seq<Entry>, last: Entry, h: Index, j: nat)
    requires t.Valid() && EntriesOk(t.head, es) && EntryOk(last, t.cols) && last.Slice?
    requires SelectedShape(t.head, es) != [] && In(h, SelectedShape(t.head, es)) && j < Length(last, t.cols)
    ensures Select(t, es, last).At(h, j) == t.At(SourceIndex(t.head, es, h), Source(last, t.cols, j))
    ensures In(SourceIndex(t.head, es, h), t.head) && Source(last, t.cols, j) < t.cols
  {
    SourceIndexIn(t.head, es, h);
    SourceIn(last, t.cols, j);
  }
}
