/** Scaling a factored weight, and joining several along a new or the first axis. */
module LoraCombine {
  import opened LoraIndexing
  import opened LoraTensor
  import opened Tensors
  import opened Wrappers

  // ---------- scale ----------

  /** The other operand of a product: a number, or a tensor with any number of axes. */
  datatype Factor = Number(c: real) | Dense(shape: seq<nat>, values: Index -> real)

  function Filled(shape: seq<nat>, n: nat): (r: seq<nat>)
    requires |shape| <= n
    ensures |r| == n
    ensures forall i :: 0 <= i < n ==> r[i] == if i < n - |shape| then 1 else shape[i - (n - |shape|)]
  {
    seq(n - |shape|, i => 1) + shape
  }

  function ScaledValue(t: Tensor, oh: seq<nat>, values: Index -> real, h: Index, j: nat): real {
    if |h| == |t.head| == |oh| then t.At(Bcast(t.head, h), j) * values(Bcast(oh, h)) else 0.0
  }

  /** The elements of a tensor times those of a factor with head extents `oh`, each broadcast to the other. */
  function Scaled(t: Tensor, oh: seq<nat>, values: Index -> real): (r: Tensor)
    requires t.Valid() && Broadcastable(t.head, oh)
    ensures r.Valid() && r.head == Joint(t.head, oh) && r.cols == t.cols
  {
    Build(Joint(t.head, oh), t.cols, (h: Index, j: nat) => ScaledValue(t, oh, values, h, j))
  }

  lemma ScaledAt(t: Tensor, oh: seq<nat>, values: Index -> real, h: Index, j: nat)
    requires t.Valid() && Broadcastable(t.head, oh) && In(h, Joint(t.head, oh)) && j < t.cols
    ensures Scaled(t, oh, values).At(h, j) == t.At(Bcast(t.head, h), j) * values(Bcast(oh, h))
  {
    hide Bcast, Joint, Tensor.At;
    ScaledIs(t, oh, values, h, j);
  }

  lemma ScaledIs(t: Tensor, oh: seq<nat>, values: Index -> real, h: Index, j: nat)
    requires t.Valid() && Broadcastable(t.head, oh) && In(h, Joint(t.head, oh)) && j < t.cols
    ensures Scaled(t, oh, values).At(h, j) == ScaledValue(t, oh, values, h, j)
  {
    hide ScaledValue, Joint, Tensor.At;
  }

  // ---------- the general product ----------

  function Larger(m: nat, n: nat): nat {
    if m < n then n else m
  }

  /** The element of two broadcast operands at a full index. */
  function TimesValue(t: Tensor, shape: seq<nat>, values: Index -> real, x: Index): real {
    var n := Larger(|t.head| + 1, |shape|);
    if |x| != n then 0.0
    else
      var g, o := Bcast(Filled(t.Shape(), n), x)[n - |t.head| - 1..], Bcast(Filled(shape, n), x)[n - |shape|..];
      t.At(g[..|t.head|], g[|t.head|]) * values(o)
  }

  /** `self * other` on a dense tensor: each operand broadcast to the other, or nothing where they do not. */
  function DenseScale(t: Tensor, f: Factor): (r: Option<Tensor>)
    requires t.Valid()
    ensures r.Some? ==> r.value.Valid()
  {
    match f
    case Number(c) =>
      assert Broadcastable(t.head, Filled([], |t.head|));
      Some(Scaled(t, Filled([], |t.head|), _ => c))
    case Dense(shape, values) =>
      var n := Larger(|t.head| + 1, |shape|);
      var s, o := Filled(t.Shape(), n), Filled(shape, n);
      if !Broadcastable(s, o) then None
      else Some(Build(Joint(s, o)[..n - 1], Joint(s, o)[n - 1], (h: Index, j: nat) => TimesValue(t, shape, values, h + [j])))
  }

  /** `self * other`: only B is scaled, and only by what has a last extent of one. */
  function Scale(p: Lora, f: Factor): Option<Lora>
    requires WellFormed(p)
  {
    if f.Dense? && f.shape != [] && f.shape[|f.shape| - 1] != 1 then None
    else
      var b := DenseScale(p.b, f);
      if b.None? then None else Checked(p.a, b.value)
  }

  /** A number, a tensor without axes, or one that acts on the output side: a single column, and no more axes
      than there are extents in `shape`.
   */
  predicate OutputSide(f: Factor, ndim: nat) {
    f.Number? || f.shape == [] || (f.shape[|f.shape| - 1] == 1 && |f.shape| <= ndim)
  }

  /** What such a tensor gives for all but the last axis. */
  function ColumnValues(shape: seq<nat>, values: Index -> real, n: nat): Index -> real {
    (h: Index) => if |h| != n || |shape| > n + 1 then 0.0 else if shape == [] then values([]) else values(h[n + 1 - |shape|..] + [0])
  }

  function ColumnHead(shape: seq<nat>, n: nat): (r: seq<nat>)
    requires |shape| <= n + 1
    ensures |r| == n
  {
    if shape == [] then Filled([], n) else Filled(Lead(shape), n)
  }

  lemma FilledColumn(shape: seq<nat>, n: nat)
    requires |shape| <= n + 1 && (shape != [] ==> shape[|shape| - 1] == 1)
    ensures Filled(shape, n + 1) == ColumnHead(shape, n) + [1]
  {
  }

  lemma ColumnBroadcasts(head: seq<nat>, cols: nat, oh: seq<nat>)
    requires |head| == |oh|
    ensures Broadcastable(head + [cols], oh + [1]) <==> Broadcastable(head, oh)
    ensures Broadcastable(head, oh) ==> Joint(head + [cols], oh + [1]) == Joint(head, oh) + [cols]
  {
    if Broadcastable(head + [cols], oh + [1]) {
      forall i | 0 <= i < |head| ensures head[i] == oh[i] || head[i] == 1 || oh[i] == 1 {
        assert (head + [cols])[i] == head[i] && (oh + [1])[i] == oh[i];
      }
    }
  }

  lemma BcastColumn(shape: seq<nat>, n: nat, h: Index, j: nat)
    requires |h| == |shape| && j < n
    ensures Bcast(shape + [n], h + [j]) == Bcast(shape, h) + [j]
  {
  }

  lemma TimesColumn(t: Tensor, shape: seq<nat>, values: Index -> real, h: Index, j: nat)
    requires t.Valid() && |shape| <= |t.head| + 1 && (shape != [] ==> shape[|shape| - 1] == 1)
    requires |h| == |t.head| && j < t.cols
    ensures TimesValue(t, shape, values, h + [j])
         == ScaledValue(t, ColumnHead(shape, |t.head|), ColumnValues(shape, values, |t.head|), h, j)
  {
    hide Bcast, Filled, ColumnHead, Tensor.At;
    var n, oh := |t.head|, ColumnHead(shape, |t.head|);
    FilledColumn(shape, n);
    FilledWhole(t.Shape());
    BcastColumn(t.head, t.cols, h, j);
    BcastLastOne(oh, h, j);
    var g, o := Bcast(t.head, h) + [j], Bcast(oh, h) + [0];
    assert g[0..] == g && g[..n] == Bcast(t.head, h);
    assert o[n + 1 - |shape|..] == if shape == [] then [] else Bcast(oh, h)[n + 1 - |shape|..] + [0];
  }

  lemma FilledWhole(shape: seq<nat>)
    ensures Filled(shape, |shape|) == shape
  {
  }

  lemma BcastLastOne(shape: seq<nat>, h: Index, j: nat)
    requires |h| == |shape|
    ensures Bcast(shape + [1], h + [j]) == Bcast(shape, h) + [0]
  {
  }

  /** On the output side the general product scales rows. */
  lemma ColumnScaled(t: Tensor, shape: seq<nat>, values: Index -> real)
    requires t.Valid() && OutputSide(Dense(shape, values), |t.head| + 1)
    ensures var oh, r := ColumnHead(shape, |t.head|), DenseScale(t, Dense(shape, values));
      && (r.Some? <==> Broadcastable(t.head, oh))
      && (r.Some? ==> r.value == Scaled(t, oh, ColumnValues(shape, values, |t.head|)))
  {
    hide TimesValue, ScaledValue, ColumnHead, Filled, Joint, Broadcastable;
    var n, oh, f := |t.head|, ColumnHead(shape, |t.head|), ColumnValues(shape, values, |t.head|);
    FilledColumn(shape, n);
    FilledWhole(t.Shape());
    ColumnBroadcasts(t.head, t.cols, oh);
    if Broadcastable(t.head, oh) {
      var r, u := DenseScale(t, Dense(shape, values)).value, Scaled(t, oh, f);
      assert r.head == u.head && r.cols == u.cols;
      forall h: Index, j: nat | In(h, r.head) && j < r.cols ensures r.At(h, j) == u.At(h, j) {
        TimesColumn(t, shape, values, h, j);
        ScaledIs(t, oh, f, h, j);
      }
      SameTensor(r, u);
    }
  }

  lemma BcastTwice(la: seq<nat>, lb: seq<nat>, x: nat, h: Index)
    requires Broadcasts(la, lb) && |h| == |lb| + 1
    ensures Bcast(la, Lead(Bcast(lb + [x], h))) == Bcast(la, Lead(h))
  {
  }

  lemma {:induction false} ScaledProduct(p: Lora, g: Index, q: Lora, h: Index, j: nat, c: real, n: nat)
    requires p.a.head != [] && |g| == |p.a.head| && q.a.head != [] && |h| == |q.a.head|
    requires forall r: nat :: r < n ==> Term(q, h, j, r) == c * Term(p, g, j, r)
    ensures Product(q, h, j, n) == c * Product(p, g, j, n)
  {
    hide Term;
    if n > 0 {
      ScaledProduct(p, g, q, h, j, c, n - 1);
    }
  }

  /** Rows of B scaled are rows of the product scaled. */
  lemma ScaledFaithful(p: Lora, oh: seq<nat>, values: Index -> real)
    requires WellFormed(p) && Broadcastable(p.b.head, oh)
    ensures WellFormed(Lora(p.a, Scaled(p.b, oh, values)))
    ensures Materialized(Lora(p.a, Scaled(p.b, oh, values))) == Scaled(Materialized(p), oh, values)
  {
    hide Materialized, Scaled, Bcast;
    var q := Lora(p.a, Scaled(p.b, oh, values));
    assert WellFormed(q);
    forall h: Index, j: nat | In(h, q.b.head) && j < p.a.cols
      ensures Materialized(q).At(h, j) == Scaled(Materialized(p), oh, values).At(h, j)
    {
      ScaledEntry(p, oh, values, h, j);
    }
    SameTensor(Materialized(q), Scaled(Materialized(p), oh, values));
  }

  lemma ScaledEntry(p: Lora, oh: seq<nat>, values: Index -> real, h: Index, j: nat)
    requires WellFormed(p) && Broadcastable(p.b.head, oh) && WellFormed(Lora(p.a, Scaled(p.b, oh, values)))
    requires In(h, Joint(p.b.head, oh)) && j < p.a.cols
    ensures Materialized(Lora(p.a, Scaled(p.b, oh, values))).At(h, j) == Scaled(Materialized(p), oh, values).At(h, j)
  {
    hide Materialized, Scaled, Bcast, Term, Product;
    var q, g, c := Lora(p.a, Scaled(p.b, oh, values)), Bcast(p.b.head, h), values(Bcast(oh, h));
    BcastJoint(p.b.head, oh, h);
    ScaledAt(Materialized(p), oh, values, h, j);
    MaterializedAt(p, g, j);
    MaterializedAt(q, h, j);
    forall r: nat | r < p.b.cols ensures Term(q, h, j, r) == c * Term(p, g, j, r) {
      ScaledTerm(p, oh, values, h, j, r);
    }
    ScaledProduct(p, g, q, h, j, c, p.b.cols);
  }

  lemma ScaledTerm(p: Lora, oh: seq<nat>, values: Index -> real, h: Index, j: nat, r: nat)
    requires WellFormed(p) && Broadcastable(p.b.head, oh)
    requires In(h, Joint(p.b.head, oh)) && r < p.b.cols
    ensures Term(Lora(p.a, Scaled(p.b, oh, values)), h, j, r) == values(Bcast(oh, h)) * Term(p, Bcast(p.b.head, h), j, r)
  {
    hide Scaled, Bcast, Tensor.At;
    var g := Bcast(p.b.head, h);
    assert Lead(p.b.head) + [Row(p.b.head)] == p.b.head;
    BcastTwice(Lead(p.a.head), Lead(p.b.head), Row(p.b.head), h);
    ScaledAt(p.b, oh, values, h, r);
    Reassociate(p.b.At(g, r), values(Bcast(oh, h)), p.a.At(Bcast(Lead(p.a.head), Lead(g)) + [r], j));
  }

  lemma Reassociate(x: real, c: real, y: real)
    ensures x * c * y == c * (x * y)
  {
  }

  lemma BcastJoint(s: seq<nat>, t: seq<nat>, h: Index)
    requires Broadcastable(s, t) && In(h, Joint(s, t))
    ensures In(Bcast(s, h), s)
  {
  }

  /** Of the operands W can be scaled by, the pair accepts exactly those on the output side; it then stays well
      formed, and scaling commutes with the product.
   */
  lemma ScaleFaithful(p: Lora, f: Factor)
    requires WellFormed(p)
    ensures Scale(p, f).Some? <==> DenseScale(Materialized(p), f).Some? && OutputSide(f, |p.b.head| + 1)
    ensures Scale(p, f).Some? ==>
              WellFormed(Scale(p, f).value) && DenseScale(Materialized(p), f) == Some(Materialized(Scale(p, f).value))
  {
    hide Materialized, Scaled, DenseScale;
    var n := |p.b.head|;
    if f.Number? {
      assert Broadcastable(p.b.head, Filled([], n));
      ScaledFaithful(p, Filled([], n), _ => f.c);
      NumberScaled(p.b, f.c);
      NumberScaled(Materialized(p), f.c);
    } else if OutputSide(f, n + 1) {
      var oh, values := ColumnHead(f.shape, n), ColumnValues(f.shape, f.values, n);
      ColumnScaled(p.b, f.shape, f.values);
      ColumnScaled(Materialized(p), f.shape, f.values);
      if Broadcastable(p.b.head, oh) {
        ScaledFaithful(p, oh, values);
      }
    } else if |f.shape| > n + 1 {
      TooManyAxes(p.b, f);
    }
  }

  lemma NumberScaled(t: Tensor, c: real)
    requires t.Valid()
    ensures Broadcastable(t.head, Filled([], |t.head|))
    ensures DenseScale(t, Number(c)) == Some(Scaled(t, Filled([], |t.head|), _ => c))
  {
    hide Scaled;
  }

  lemma TooManyAxes(t: Tensor, f: Factor)
    requires t.Valid() && f.Dense? && |f.shape| > |t.head| + 1
    ensures DenseScale(t, f).Some? ==> |DenseScale(t, f).value.head| > |t.head|
  {
    hide Filled, Joint, Broadcastable, TimesValue;
  }

  // ---------- stack ----------

  predicate SameShape(ts: seq<Tensor>) {
    forall i :: 0 <= i < |ts| ==> ts[i].head == ts[0].head && ts[i].cols == ts[0].cols
  }

  ghost predicate AllValid(ts: seq<Tensor>) {
    forall i :: 0 <= i < |ts| ==> ts[i].Valid()
  }

  /** The tensors side by side along a new first axis. */
  function Stacked(ts: seq<Tensor>): (r: Tensor)
    requires ts != [] && AllValid(ts) && SameShape(ts)
    ensures r.Valid() && r.head == [|ts|] + ts[0].head && r.cols == ts[0].cols
    ensures forall h: Index, j: nat :: In(h, r.head) && j < r.cols ==> r.At(h, j) == ts[h[0]].At(h[1..], j)
  {
    Build([|ts|] + ts[0].head, ts[0].cols, (h: Index, j: nat) => if h != [] && h[0] < |ts| then ts[h[0]].At(h[1..], j) else 0.0)
  }

  function DenseStack(ts: seq<Tensor>): Option<Tensor>
    requires AllValid(ts)
  {
    if ts == [] || !SameShape(ts) then None else Some(Stacked(ts))
  }

  ghost predicate AllWellFormed(ps: seq<Lora>) {
    forall i :: 0 <= i < |ps| ==> WellFormed(ps[i])
  }

  function As(ps: seq<Lora>): (r: seq<Tensor>)
    requires AllWellFormed(ps)
    ensures |r| == |ps| && AllValid(r) && forall i :: 0 <= i < |r| ==> r[i] == ps[i].a
  {
    seq(|ps|, i requires 0 <= i < |ps| => ps[i].a)
  }

  function Bs(ps: seq<Lora>): (r: seq<Tensor>)
    requires AllWellFormed(ps)
    ensures |r| == |ps| && AllValid(r) && forall i :: 0 <= i < |r| ==> r[i] == ps[i].b
  {
    seq(|ps|, i requires 0 <= i < |ps| => ps[i].b)
  }

  function Ws(ps: seq<Lora>): (r: seq<Tensor>)
    requires AllWellFormed(ps)
    ensures |r| == |ps| && AllValid(r) && forall i :: 0 <= i < |r| ==> r[i] == Materialized(ps[i])
  {
    seq(|ps|, i requires 0 <= i < |ps| => Materialized(ps[i]))
  }

  /** `torch.stack(ps)` */
  function Stack(ps: seq<Lora>): Option<Lora>
    requires AllWellFormed(ps)
  {
    var a, b := DenseStack(As(ps)), DenseStack(Bs(ps));
    if a.None? || b.None? then None else Checked(a.value, b.value)
  }

  /** Stacked pairs are well formed, and stacking commutes with the product. */
  lemma StackFaithful(ps: seq<Lora>)
    requires AllWellFormed(ps) && Stack(ps).Some?
    ensures WellFormed(Stack(ps).value)
    ensures DenseStack(Ws(ps)) == Some(Materialized(Stack(ps).value))
  {
    hide Materialized, Stacked;
    var q := Stack(ps).value;
    var n, p := |ps|, ps[0];
    assert p.a == As(ps)[0] && p.b == Bs(ps)[0];
    assert Lead(q.a.head) == [n] + Lead(p.a.head) && Lead(q.b.head) == [n] + Lead(p.b.head);
    BroadcastsStep(n, Lead(p.a.head), n, Lead(p.b.head));
    assert WellFormed(q);
    var ws := Ws(ps);
    forall i | 0 <= i < n ensures ws[i].head == ws[0].head && ws[i].cols == ws[0].cols {
      assert As(ps)[i].cols == As(ps)[0].cols && Bs(ps)[i].head == Bs(ps)[0].head;
    }
    forall h: Index, j: nat | In(h, q.b.head) && j < q.a.cols ensures Materialized(q).At(h, j) == Stacked(ws).At(h, j) {
      StackEntry(ps, h, j);
    }
    SameTensor(Materialized(q), Stacked(ws));
  }

  lemma StackEntry(ps: seq<Lora>, h: Index, j: nat)
    requires AllWellFormed(ps) && Stack(ps).Some? && WellFormed(Stack(ps).value) && SameShape(Ws(ps))
    requires In(h, Stack(ps).value.b.head) && j < Stack(ps).value.a.cols
    ensures Materialized(Stack(ps).value).At(h, j) == Stacked(Ws(ps)).At(h, j)
  {
    hide Materialized, Stacked, Bcast;
    var q, x, g := Stack(ps).value, h[0], h[1..];
    assert ps[0].a == As(ps)[0] && ps[0].b == Bs(ps)[0];
    assert h == [x] + g;
    InStep(x, g, |ps|, ps[0].b.head);
    var p := ps[x];
    assert As(ps)[x].head == As(ps)[0].head && As(ps)[x].cols == As(ps)[0].cols;
    assert Bs(ps)[x].head == Bs(ps)[0].head && Bs(ps)[x].cols == Bs(ps)[0].cols;
    forall r: nat | r < p.b.cols
      ensures q.b.At(h, r) == p.b.At(g, r)
      ensures q.a.At(Bcast(Lead(q.a.head), Lead(h)) + [r], j) == p.a.At(Bcast(Lead(p.a.head), Lead(g)) + [r], j)
    {
      assert Lead(q.a.head) == [|ps|] + Lead(p.a.head) && Lead(h) == [x] + Lead(g);
      BcastStep(|ps|, Lead(p.a.head), x, Lead(g));
      var k := Bcast(Lead(p.a.head), Lead(g)) + [r];
      assert Bcast(Lead(q.a.head), Lead(h)) + [r] == [x] + k;
      BcastInRow(p, g, r);
      InStep(x, k, |ps|, p.a.head);
      assert ([x] + k)[1..] == k;
    }
    SameEntry(p, g, j, q, h, j);
  }

  lemma BcastInRow(p: Lora, g: Index, r: nat)
    requires WellFormed(p) && In(g, p.b.head) && r < p.b.cols
    ensures In(Bcast(Lead(p.a.head), Lead(g)) + [r], p.a.head)
  {
    hide Bcast;
    assert In(Lead(g), Lead(p.b.head));
    BcastIn(Lead(p.a.head), Lead(p.b.head), Lead(g));
    assert Lead(p.a.head) + [Row(p.a.head)] == p.a.head;
    InAppend(Bcast(Lead(p.a.head), Lead(g)), Lead(p.a.head), r, Row(p.a.head));
  }
}
