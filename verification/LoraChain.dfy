/** Chains of operations on a factored weight, against the same chain on the product. */
module LoraChain {
  import opened LoraCombine
  import opened LoraIndexing
  import opened LoraJoin
  import opened LoraShaping
  import opened LoraSplit
  import opened LoraTensor
  import opened RowMajor
  import opened Tensors
  import opened Wrappers

  /** One operation; a split keeps the chunk at `k`, and stack and cat put the weight between others. */
  datatype Step =
    | At(i: int)
    | Cut(s: Entry)
    | Pick(es: seq<Entry>)
    | Shape(dims: seq<int>)
    | Axis(dims: seq<int>)
    | Swap(dim0: int, dim1: int)
    | Part(sizes: Sizes, dim: int, k: nat)
    | Times(f: Factor)
    | StackWith(before: seq<Lora>, after: seq<Lora>)
    | CatWith(before: seq<Lora>, after: seq<Lora>)

  /** The axis list with two places exchanged; a place may be counted from the end. */
  function Swapped(n: nat, dim0: int, dim1: int): Option<seq<int>> {
    if !(0 <= dim0 + n && dim0 < n && 0 <= dim1 + n && dim1 < n) then None
    else
      var dims: seq<int> := seq(n, i => i);
      var i, j := if dim0 < 0 then dim0 + n else dim0, if dim1 < 0 then dim1 + n else dim1;
      Some(dims[i := j][j := i])
  }

  function Dimension(dim: int, n: nat): int {
    if dim < 0 then dim + n else dim
  }

  /** What the caller has to see to: entries are slices where they must be, axes are axes, one extent at most is
      inferred, other operands are well formed, and no broadcast axis of a factor A is cut.
   */
  ghost predicate Proper(p: Lora, s: Step)
    requires WellFormed(p)
  {
    var n := |p.b.head| + 1;
    match s
    case At(_) => true
    case Cut(e) => IsSlice(e) && (n > 2 ==> Fits(p.a.head[0], p.b.head[0], e, e))
    case Pick(es) =>
      && (forall i :: 0 <= i < |es| && n - 2 <= i ==> IsSlice(es[i]))
      && (|es| <= n ==> EntriesOk(Lead(p.b.head), Padded(es, n)[..n - 2]) ==>
            LeavesA(Lead(p.a.head), Lead(p.b.head), Padded(es, n)[..n - 2]))
    case Shape(dims) => OneInferred(dims)
    case Axis(dims) => Axes(dims, n).Some?
    case Swap(_, _) => true
    case Part(_, dim, _) => 0 <= Dimension(dim, n) < n
    case Times(_) => true
    case StackWith(before, after) => AllWellFormed(before + [p] + after)
    case CatWith(before, after) => AllWellFormed(before + [p] + after) && Joinable(before + [p] + after)
  }

  /** The operation on the pair; `None` when it raises. */
  ghost function PairStep(p: Lora, s: Step): Option<Lora>
    requires WellFormed(p) && Proper(p, s)
  {
    match s
    case At(i) => AtPosition(p, i)
    case Cut(e) => Sliced(p, e)
    case Pick(es) => Picked(p, es)
    case Shape(dims) => Reshape(p, dims)
    case Axis(dims) => Permute(p, dims)
    case Swap(dim0, dim1) =>
      var dims := Swapped(|p.b.head| + 1, dim0, dim1);
      if dims.None? then None else Permute(p, dims.value)
    case Part(sizes, dim, k) =>
      var qs := Split(p, sizes, dim);
      if qs.None? || k >= |qs.value| then None else Some(qs.value[k])
    case Times(f) => Scale(p, f)
    case StackWith(before, after) => Stack(before + [p] + after)
    case CatWith(before, after) => Join(before + [p] + after)
  }

  /** The operation on a dense weight; `None` when it raises. */
  ghost function DenseStep(w: Tensor, s: Step): Option<Tensor>
    requires w.Valid()
  {
    var n := |w.head| + 1;
    match s
    case At(i) =>
      if n <= 2 || !EntryOk(Pos(i), w.head[0]) then None else DenseEntries(w, [Pos(i)] + Fulls(n - 2))
    case Cut(e) => DenseEntries(w, [e] + Fulls(n - 2))
    case Pick(es) =>
      if exists i :: 0 <= i < |es| && n - 2 <= i && !IsSlice(es[i]) then None else DensePicked(w, es)
    case Shape(dims) => DenseReshape(w, dims)
    case Axis(dims) => DensePermute(w, dims)
    case Swap(dim0, dim1) =>
      var dims := Swapped(n, dim0, dim1);
      if dims.None? then None else DensePermute(w, dims.value)
    case Part(sizes, dim, k) =>
      var d := Dimension(dim, n);
      if !(0 <= d < n) then None
      else
        var ts := DenseSplit(w, sizes, d);
        if ts.None? || k >= |ts.value| then None else Some(ts.value[k])
    case Times(f) => DenseScale(w, f)
    case StackWith(before, after) =>
      if AllWellFormed(before) && AllWellFormed(after) then DenseStack(Ws(before) + [w] + Ws(after)) else None
    case CatWith(before, after) =>
      if AllWellFormed(before) && AllWellFormed(after) then DenseJoin(Ws(before) + [w] + Ws(after)) else None
  }

  ghost function DenseEntries(w: Tensor, es: seq<Entry>): Option<Tensor>
    requires w.Valid()
  {
    if EntriesOk(w.head, es) && SelectedShape(w.head, es) != [] && EntryOk(FULL, w.cols) then Some(Select(w, es, FULL)) else None
  }

  ghost function DensePermute(w: Tensor, dims: seq<int>): Option<Tensor>
    requires w.Valid()
  {
    var axes := Axes(dims, |w.head| + 1);
    if axes.None? then None else Some(Permuted(w, axes.value))
  }

  // ---------- one step ----------

  lemma SwappedAxes(n: nat, dim0: int, dim1: int)
    requires Swapped(n, dim0, dim1).Some?
    ensures Axes(Swapped(n, dim0, dim1).value, n).Some?
  {
    var dims := Swapped(n, dim0, dim1).value;
    var axes := seq(n, i requires 0 <= i < n => (if dims[i] < 0 then dims[i] + n else dims[i]) as nat);
    assert Permutes(axes, n);
  }

  lemma WsAround(before: seq<Lora>, p: Lora, after: seq<Lora>)
    requires AllWellFormed(before + [p] + after)
    ensures AllWellFormed(before) && AllWellFormed(after) && WellFormed(p)
    ensures Ws(before + [p] + after) == Ws(before) + [Materialized(p)] + Ws(after)
  {
    hide Materialized, WellFormed;
    var ps := before + [p] + after;
    assert ps[|before|] == p;
    forall i | 0 <= i < |before| ensures WellFormed(before[i]) {
      assert ps[i] == before[i];
    }
    forall i | 0 <= i < |after| ensures WellFormed(after[i]) {
      assert ps[|before| + 1 + i] == after[i];
    }
  }

  ghost predicate Faithful(p: Lora, s: Step)
    requires WellFormed(p) && Proper(p, s) && PairStep(p, s).Some?
  {
    var q := PairStep(p, s).value;
    WellFormed(q) && DenseStep(Materialized(p), s) == Some(Materialized(q))
  }

  lemma IndexStep(p: Lora, s: Step)
    requires WellFormed(p) && Proper(p, s) && (s.At? || s.Cut? || s.Pick?) && PairStep(p, s).Some?
    ensures Faithful(p, s)
  {
    hide Materialized, WellFormed, Select, SelectedShape, AtPosition, Sliced, Picked, DensePicked, LeavesA, Padded, Fits, EntriesOk;
    assert |p.a.head| == |p.b.head| && |Materialized(p).head| == |p.b.head| by { SameRank(p); }
    match s
    case At(i) => AtPositionFaithful(p, i); LeadHead(p);
    case Cut(e) => SlicedFaithful(p, e); LeadHead(p);
    case Pick(es) => PickedFaithful(p, es); PickedSome(p, es);
  }

  lemma SameRank(p: Lora)
    requires WellFormed(p)
    ensures |p.a.head| == |p.b.head| && |p.b.head| > 0 && Materialized(p).head == p.b.head && Materialized(p).cols == p.a.cols
  {
  }

  lemma LeadHead(p: Lora)
    requires WellFormed(p)
    ensures |p.b.head| > 1 ==> Lead(p.a.head) != [] && Lead(p.a.head)[0] == p.a.head[0] && Lead(p.b.head)[0] == p.b.head[0]
    ensures Lead(p.a.head) != [] ==> |p.b.head| > 1
  {
  }

  lemma PickedSome(p: Lora, es: seq<Entry>)
    requires WellFormed(p) && forall i :: 0 <= i < |es| && |p.a.head| - 1 <= i ==> IsSlice(es[i])
    requires Picked(p, es).Some?
    ensures 0 < |es| <= |p.a.head| + 1
  {
  }

  lemma ShapeStep(p: Lora, s: Step)
    requires WellFormed(p) && Proper(p, s) && (s.Shape? || s.Axis? || s.Swap?) && PairStep(p, s).Some?
    ensures Faithful(p, s)
  {
    hide Materialized, WellFormed, Permuted, Permute, Axes, Reshape, DenseReshape, Swapped;
    SameRank(p);
    match s
    case Shape(dims) => ReshapeFaithful(p, dims);
    case Axis(dims) => PermuteFaithful(p, dims);
    case Swap(dim0, dim1) =>
      SwappedAxes(|p.b.head| + 1, dim0, dim1);
      PermuteFaithful(p, Swapped(|p.b.head| + 1, dim0, dim1).value);
  }

  lemma CombineStep(p: Lora, s: Step)
    requires WellFormed(p) && Proper(p, s) && (s.Part? || s.Times? || s.StackWith? || s.CatWith?) && PairStep(p, s).Some?
    ensures Faithful(p, s)
  {
    hide Materialized, WellFormed, Split, DenseSplit, Scale, DenseScale, Stack, DenseStack, Join, DenseJoin, AllWellFormed;
    SameRank(p);
    match s
    case Part(sizes, dim, k) => SplitFaithful(p, sizes, dim);
    case Times(f) => ScaleFaithful(p, f);
    case StackWith(before, after) =>
      WsAround(before, p, after);
      StackFaithful(before + [p] + after);
    case CatWith(before, after) =>
      WsAround(before, p, after);
      JoinFaithful(before + [p] + after);
  }

  // ---------- whole chains ----------

  /** Every step is proper for the pair it meets, and none raises. */
  ghost predicate Runs(p: Lora, steps: seq<Step>)
    requires WellFormed(p)
    decreases steps
  {
    steps != [] ==>
      && Proper(p, steps[0]) && PairStep(p, steps[0]).Some?
      && var q := PairStep(p, steps[0]).value; WellFormed(q) ==> Runs(q, steps[1..])
  }

  ghost function PairChain(p: Lora, steps: seq<Step>): Lora
    requires WellFormed(p) && Runs(p, steps)
    decreases steps
  {
    if steps == [] then p else StepFaithful(p, steps[0]); PairChain(PairStep(p, steps[0]).value, steps[1..])
  }

  ghost function DenseChain(w: Tensor, steps: seq<Step>): Option<Tensor>
    requires w.Valid()
    decreases steps
  {
    if steps == [] then Some(w)
    else
      var v := DenseStep(w, steps[0]);
      if v.None? || !v.value.Valid() then None else DenseChain(v.value, steps[1..])
  }

  lemma StepFaithful(p: Lora, s: Step)
    requires WellFormed(p) && Proper(p, s) && PairStep(p, s).Some?
    ensures Faithful(p, s)
  {
    hide Faithful, Proper, PairStep;
    if s.At? || s.Cut? || s.Pick? {
      IndexStep(p, s);
    } else if s.Shape? || s.Axis? || s.Swap? {
      ShapeStep(p, s);
    } else {
      CombineStep(p, s);
    }
  }

  /** The product of the factors a chain arrives at is what the chain makes of the product. */
  lemma {:induction false} ChainFaithful(p: Lora, steps: seq<Step>)
    requires WellFormed(p) && Runs(p, steps)
    ensures WellFormed(PairChain(p, steps))
    ensures DenseChain(Materialized(p), steps) == Some(Materialized(PairChain(p, steps)))
    decreases steps
  {
    hide Materialized, Proper, PairStep, DenseStep, WellFormed;
    if steps != [] {
      StepFaithful(p, steps[0]);
      ChainFaithful(PairStep(p, steps[0]).value, steps[1..]);
    }
  }
}
