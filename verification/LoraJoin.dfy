/** Concatenating factored weights along the first axis. */
module LoraJoin {
  import opened LoraCombine
  import opened LoraIndexing
  import opened LoraSplit
  import opened LoraTensor
  import opened Tensors
  import opened Wrappers

  /** The part that position `x` of the joined axis lies in, and where in it. */
  function Locate(cuts: seq<nat>, x: nat): (r: (nat, nat))
    requires x < Sum(cuts)
    ensures r.0 < |cuts| && r.1 < cuts[r.0] && x == Sum(cuts[..r.0]) + r.1
  {
    if x < cuts[0] then (0, x)
    else
      var r := Locate(cuts[1..], x - cuts[0]);
      assert cuts[..r.0 + 1][1..] == cuts[1..][..r.0];
      (r.0 + 1, r.1)
  }

  predicate SameTail(ts: seq<Tensor>)
    requires ts != [] && forall i :: 0 <= i < |ts| ==> ts[i].head != []
  {
    forall i :: 0 <= i < |ts| ==> ts[i].head[1..] == ts[0].head[1..] && ts[i].cols == ts[0].cols
  }

  function Firsts(ts: seq<Tensor>): (r: seq<nat>)
    requires AllValid(ts)
    ensures |r| == |ts| && forall i :: 0 <= i < |r| ==> r[i] == ts[i].head[0]
  {
    seq(|ts|, i requires 0 <= i < |ts| => ts[i].head[0])
  }

  function JoinedValue(ts: seq<Tensor>, h: Index, j: nat): real
    requires AllValid(ts)
  {
    if h == [] || h[0] >= Sum(Firsts(ts)) then 0.0
    else
      var r := Locate(Firsts(ts), h[0]);
      ts[r.0].At([r.1] + h[1..], j)
  }

  /** The tensors one after the other along the first axis. */
  function Joined(ts: seq<Tensor>): (r: Tensor)
    requires ts != [] && AllValid(ts) && SameTail(ts)
    ensures r.Valid() && r.head == [Sum(Firsts(ts))] + ts[0].head[1..] && r.cols == ts[0].cols
  {
    Build([Sum(Firsts(ts))] + ts[0].head[1..], ts[0].cols, (h: Index, j: nat) => JoinedValue(ts, h, j))
  }

  lemma JoinedIs(ts: seq<Tensor>, h: Index, j: nat)
    requires ts != [] && AllValid(ts) && SameTail(ts) && In(h, Joined(ts).head) && j < ts[0].cols
    ensures Joined(ts).At(h, j) == JoinedValue(ts, h, j)
  {
    hide JoinedValue, Tensor.At;
  }

  lemma JoinedAt(ts: seq<Tensor>, x: nat, t: Index, j: nat)
    requires ts != [] && AllValid(ts) && SameTail(ts) && x < Sum(Firsts(ts)) && In(t, ts[0].head[1..]) && j < ts[0].cols
    ensures var r := Locate(Firsts(ts), x);
      Joined(ts).At([x] + t, j) == ts[r.0].At([r.1] + t, j) && In([r.1] + t, ts[r.0].head)
  {
    hide Joined, Tensor.At, Locate;
    InStep(x, t, Sum(Firsts(ts)), ts[0].head[1..]);
    JoinedIs(ts, [x] + t, j);
    assert ([x] + t)[1..] == t;
    var r := Locate(Firsts(ts), x);
    assert [ts[r.0].head[0]] + ts[r.0].head[1..] == ts[r.0].head;
    InStep(r.1, t, ts[r.0].head[0], ts[r.0].head[1..]);
  }

  function DenseJoin(ts: seq<Tensor>): Option<Tensor>
    requires AllValid(ts)
  {
    if ts == [] || !SameTail(ts) then None else Some(Joined(ts))
  }

  /** `torch.cat(ps)` */
  function Join(ps: seq<Lora>): Option<Lora>
    requires AllWellFormed(ps)
  {
    if ps == [] then None
    else
      var b := DenseJoin(Bs(ps));
      if |ps[0].b.head| > 1 then
        var a := DenseJoin(As(ps));
        if a.None? || b.None? then None else Checked(a.value, b.value)
      else if exists i :: 0 < i < |ps| && ps[i].a != ps[0].a then None
      else if b.None? then None
      else Checked(ps[0].a, b.value)
  }

  // ---------- which joins stay well formed ----------

  /** On the first axis no factor A is broadcast against its B. */
  predicate Matched(ps: seq<Lora>) {
    forall i :: 0 <= i < |ps| ==> ps[i].a.head != [] && ps[i].b.head != [] && ps[i].a.head[0] == ps[i].b.head[0]
  }

  /** Two-axis weights, weights with unbroadcast first axes, or weights of which one alone has a first extent
      in A, and that of one.
   */
  ghost predicate Joinable(ps: seq<Lora>)
    requires AllWellFormed(ps)
  {
    ps != [] && (|ps[0].b.head| == 1 || Sum(Firsts(As(ps))) == 1 || Matched(ps))
  }

  lemma {:induction false} SumBound(a: seq<nat>, b: seq<nat>)
    requires |a| == |b| && forall i :: 0 <= i < |a| ==> 1 <= a[i] <= b[i]
    ensures |a| <= Sum(a) <= Sum(b)
    ensures Sum(a) == Sum(b) <==> a == b
  {
    if a == [] {
    } else {
      SumBound(a[1..], b[1..]);
      assert a == [a[0]] + a[1..] && b == [b[0]] + b[1..];
    }
  }

  /** The joined pair is well formed exactly when the first extents of the factors add up to numbers that
      broadcast; with no empty weight among them, exactly when no broadcast first axis is cut.
   */
  lemma JoinWellFormed(ps: seq<Lora>)
    requires AllWellFormed(ps) && Join(ps).Some?
    ensures var a, b := Sum(Firsts(As(ps))), Sum(Firsts(Bs(ps)));
      WellFormed(Join(ps).value) <==> |ps[0].b.head| == 1 || a == 1 || a == b
    ensures (forall i :: 0 <= i < |ps| ==> ps[i].b.head[0] > 0) ==> (WellFormed(Join(ps).value) <==> Joinable(ps))
  {
    hide Joined;
    var q, p := Join(ps).value, ps[0];
    assert p.a == As(ps)[0] && p.b == Bs(ps)[0];
    if |p.b.head| > 1 {
      var a, b := Firsts(As(ps)), Firsts(Bs(ps));
      JoinTails(ps);
      forall i | 0 <= i < |ps| ensures (a[i] == 1 || a[i] == b[i]) && a[i] == ps[i].a.head[0] && b[i] == ps[i].b.head[0] {
        LeadFirst(ps[i]);
      }
      JoinLead(ps);
      BroadcastsCons(Sum(a), Lead(p.a.head)[1..], Sum(b), Lead(p.b.head)[1..]);
      TailBroadcasts(Lead(p.a.head), Lead(p.b.head));
      if forall i :: 0 <= i < |ps| ==> ps[i].b.head[0] > 0 {
        SumBound(a, b);
        SameFirsts(ps);
      }
    } else {
      assert Lead(q.a.head) == [] && Lead(q.b.head) == [];
    }
  }

  lemma SameFirsts(ps: seq<Lora>)
    requires AllWellFormed(ps)
    ensures Matched(ps) <==> Firsts(As(ps)) == Firsts(Bs(ps))
  {
    if Matched(ps) {
      assert Firsts(As(ps)) == Firsts(Bs(ps));
    }
    if Firsts(As(ps)) == Firsts(Bs(ps)) {
      forall i | 0 <= i < |ps| ensures ps[i].a.head[0] == ps[i].b.head[0] {
        assert Firsts(As(ps))[i] == Firsts(Bs(ps))[i];
      }
    }
  }

  lemma TailBroadcasts(la: seq<nat>, lb: seq<nat>)
    requires Broadcasts(la, lb) && la != []
    ensures Broadcasts(la[1..], lb[1..])
  {
  }

  /** All weights have the axes of the first, but for the first axis. */
  lemma JoinTails(ps: seq<Lora>)
    requires AllWellFormed(ps) && Join(ps).Some? && |ps[0].b.head| > 1
    ensures forall i :: 0 <= i < |ps| ==>
              && |ps[i].b.head| == |ps[0].b.head| == |ps[i].a.head|
              && ps[i].a.head[1..] == ps[0].a.head[1..] && ps[i].b.head[1..] == ps[0].b.head[1..]
              && ps[i].a.cols == ps[0].a.cols && ps[i].b.cols == ps[0].b.cols
  {
    forall i | 0 <= i < |ps|
      ensures |ps[i].b.head| == |ps[0].b.head| == |ps[i].a.head|
      ensures ps[i].a.head[1..] == ps[0].a.head[1..] && ps[i].b.head[1..] == ps[0].b.head[1..]
      ensures ps[i].a.cols == ps[0].a.cols && ps[i].b.cols == ps[0].b.cols
    {
      assert As(ps)[i].head[1..] == As(ps)[0].head[1..] && Bs(ps)[i].head[1..] == Bs(ps)[0].head[1..];
      assert |ps[i].b.head| == |ps[i].b.head[1..]| + 1;
    }
  }

  lemma LeadFirst(p: Lora)
    requires WellFormed(p) && |p.b.head| > 1
    ensures p.a.head[0] == 1 || p.a.head[0] == p.b.head[0]
  {
    assert Lead(p.a.head)[0] == p.a.head[0] && Lead(p.b.head)[0] == p.b.head[0];
  }

  lemma JoinLead(ps: seq<Lora>)
    requires AllWellFormed(ps) && Join(ps).Some? && |ps[0].b.head| > 1
    ensures var q, p := Join(ps).value, ps[0];
      && q.a.head != [] && q.b.head != [] && q.a.cols == p.a.cols && q.b.cols == p.b.cols
      && Lead(q.a.head) == [Sum(Firsts(As(ps)))] + Lead(p.a.head)[1..]
      && Lead(q.b.head) == [Sum(Firsts(Bs(ps)))] + Lead(p.b.head)[1..]
      && q.b.head == [Sum(Firsts(Bs(ps)))] + p.b.head[1..]
      && Row(q.a.head) == Row(p.a.head)
  {
    hide Joined;
    var q, p := Join(ps).value, ps[0];
    assert p.a == As(ps)[0] && p.b == Bs(ps)[0];
    assert |p.a.head| == |p.b.head|;
    assert q.a.head == [Sum(Firsts(As(ps)))] + p.a.head[1..];
    assert Lead(q.a.head) == [Sum(Firsts(As(ps)))] + Lead(p.a.head)[1..];
    assert Lead(q.b.head) == [Sum(Firsts(Bs(ps)))] + Lead(p.b.head)[1..];
  }

  // ---------- joining commutes with the product ----------

  lemma JoinFaithful(ps: seq<Lora>)
    requires AllWellFormed(ps) && Join(ps).Some? && Joinable(ps)
    ensures WellFormed(Join(ps).value)
    ensures DenseJoin(Ws(ps)) == Some(Materialized(Join(ps).value))
  {
    hide Materialized, Joined, JoinedValue;
    var q, ws := Join(ps).value, Ws(ps);
    JoinKeeps(ps);
    JoinSameTail(ps);
    JoinSameFirsts(ps);
    forall h: Index, j: nat | In(h, q.b.head) && j < q.a.cols ensures Materialized(q).At(h, j) == Joined(ws).At(h, j) {
      JoinEntry(ps, h, j);
    }
    SameTensor(Materialized(q), Joined(ws));
  }

  lemma JoinKeeps(ps: seq<Lora>)
    requires AllWellFormed(ps) && Join(ps).Some? && Joinable(ps)
    ensures var q, p := Join(ps).value, ps[0];
      && WellFormed(q) && q.b.head == [Sum(Firsts(Bs(ps)))] + p.b.head[1..] && q.a.cols == p.a.cols && q.b.cols == p.b.cols
  {
    hide Joined;
    var q, p := Join(ps).value, ps[0];
    assert p.a == As(ps)[0] && p.b == Bs(ps)[0];
    if |p.b.head| > 1 {
      JoinLead(ps);
      var a, b := Firsts(As(ps)), Firsts(Bs(ps));
      SameFirsts(ps);
      TailBroadcasts(Lead(p.a.head), Lead(p.b.head));
      BroadcastsStep(Sum(a), Lead(p.a.head)[1..], Sum(b), Lead(p.b.head)[1..]);
    }
  }

  lemma JoinSameTail(ps: seq<Lora>)
    requires AllWellFormed(ps) && Join(ps).Some?
    ensures SameTail(Ws(ps))
  {
    hide Materialized, Joined;
    var ws := Ws(ps);
    forall i | 0 <= i < |ws| ensures ws[i].head[1..] == ws[0].head[1..] && ws[i].cols == ws[0].cols {
      if |ps[0].b.head| > 1 {
        JoinTails(ps);
      } else {
        assert Bs(ps)[i].head[1..] == Bs(ps)[0].head[1..];
        assert i > 0 ==> ps[i].a == ps[0].a;
      }
    }
  }

  lemma JoinSameFirsts(ps: seq<Lora>)
    requires AllWellFormed(ps)
    ensures Firsts(Ws(ps)) == Firsts(Bs(ps))
  {
    hide Materialized;
  }

  lemma JoinEntry(ps: seq<Lora>, h: Index, j: nat)
    requires AllWellFormed(ps) && Join(ps).Some? && Joinable(ps) && WellFormed(Join(ps).value) && SameTail(Ws(ps))
    requires In(h, Join(ps).value.b.head) && j < Join(ps).value.a.cols
    ensures Materialized(Join(ps).value).At(h, j) == Joined(Ws(ps)).At(h, j)
  {
    hide Materialized, Joined, JoinedValue, Bcast, Locate, Sum, Join, Joinable, Tensor.At;
    JoinKeeps(ps);
    JoinSameFirsts(ps);
    JoinShapes(ps);
    var q, x, t := Join(ps).value, h[0], h[1..];
    assert h == [x] + t;
    InStep(x, t, Sum(Firsts(Bs(ps))), ps[0].b.head[1..]);
    var l := Locate(Firsts(Bs(ps)), x);
    var p, g := ps[l.0], [l.1] + t;
    JoinedAt(Ws(ps), x, t, j);
    forall r: nat | r < p.b.cols
      ensures q.b.At(h, r) == p.b.At(g, r)
      ensures q.a.At(Bcast(Lead(q.a.head), Lead(h)) + [r], j) == p.a.At(Bcast(Lead(p.a.head), Lead(g)) + [r], j)
    {
      JoinedB(ps, x, t, r);
      JoinedA(ps, x, t, r, j);
    }
    SameEntry(p, g, j, q, h, j);
  }

  lemma JoinShapes(ps: seq<Lora>)
    requires AllWellFormed(ps) && Join(ps).Some?
    ensures ps != [] && SameTail(Bs(ps))
    ensures forall i :: 0 <= i < |ps| ==>
              ps[i].a.cols == ps[0].a.cols && ps[i].b.cols == ps[0].b.cols && ps[i].b.head[1..] == ps[0].b.head[1..]
  {
    hide Joined;
    forall i | 0 <= i < |ps|
      ensures ps[i].a.cols == ps[0].a.cols && ps[i].b.cols == ps[0].b.cols && ps[i].b.head[1..] == ps[0].b.head[1..]
    {
      assert Bs(ps)[i].head[1..] == Bs(ps)[0].head[1..] && Bs(ps)[i].cols == Bs(ps)[0].cols;
      if |ps[0].b.head| > 1 {
        assert As(ps)[i].cols == As(ps)[0].cols;
      } else {
        assert i > 0 ==> ps[i].a == ps[0].a;
      }
    }
  }

  lemma JoinedB(ps: seq<Lora>, x: nat, t: Index, r: nat)
    requires AllWellFormed(ps) && Join(ps).Some? && x < Sum(Firsts(Bs(ps))) && In(t, ps[0].b.head[1..]) && r < ps[0].b.cols
    ensures var l := Locate(Firsts(Bs(ps)), x);
      Join(ps).value.b.At([x] + t, r) == ps[l.0].b.At([l.1] + t, r)
  {
    hide Joined, Locate, Sum, Tensor.At;
    assert Bs(ps)[0] == ps[0].b;
    JoinedAt(Bs(ps), x, t, r);
  }

  /** The row of A found through the joined pair is the row found through the part. */
  lemma JoinedA(ps: seq<Lora>, x: nat, t: Index, r: nat, j: nat)
    requires AllWellFormed(ps) && Join(ps).Some? && Joinable(ps) && WellFormed(Join(ps).value)
    requires x < Sum(Firsts(Bs(ps))) && In(t, ps[0].b.head[1..]) && r < ps[0].b.cols && j < ps[0].a.cols
    requires |Join(ps).value.a.head| == |t| + 1
    ensures var q, l := Join(ps).value, Locate(Firsts(Bs(ps)), x); var p := ps[l.0];
      && |p.a.head| == |t| + 1
      && q.a.At(Bcast(Lead(q.a.head), Lead([x] + t)) + [r], j) == p.a.At(Bcast(Lead(p.a.head), Lead([l.1] + t)) + [r], j)
  {
    hide Joined, Locate, Sum, Tensor.At, Bcast;
    var q, l := Join(ps).value, Locate(Firsts(Bs(ps)), x);
    var p := ps[l.0];
    assert Bs(ps)[l.0].head[1..] == Bs(ps)[0].head[1..];
    if |ps[0].b.head| == 1 {
      assert q.a == ps[0].a == p.a && t == [] && Lead([x] + t) == [] == Lead([l.1] + t);
    } else {
      JoinTails(ps);
      JoinLead(ps);
      var y := if Sum(Firsts(As(ps))) == 1 then 0 else x;
      var z := if p.a.head[0] == 1 then 0 else l.1;
      JoinedPlace(ps, x);
      var u := Lead(t);
      LeadBehind(x, t);
      LeadBehind(l.1, t);
      assert Lead(p.a.head) == [p.a.head[0]] + Lead(p.a.head)[1..] && Lead(p.a.head)[1..] == Lead(ps[0].a.head)[1..];
      var la := Lead(ps[0].a.head)[1..];
      BcastStep(Sum(Firsts(As(ps))), la, x, u);
      BcastStep(p.a.head[0], la, l.1, u);
      var v := Bcast(la, u) + [r];
      Grouped(y, Bcast(la, u), r);
      Grouped(z, Bcast(la, u), r);
      TailRow(ps[0], t, r);
      assert As(ps)[0] == ps[0].a && As(ps)[l.0] == p.a;
      JoinedAt(As(ps), y, v, j);
    }
  }

  lemma LeadBehind(x: nat, t: Index)
    requires t != []
    ensures Lead([x] + t) == [x] + Lead(t)
  {
  }

  lemma Grouped(y: nat, w: Index, r: nat)
    ensures [y] + w + [r] == [y] + (w + [r])
  {
  }

  lemma TailRow(p: Lora, t: Index, r: nat)
    requires WellFormed(p) && |p.b.head| > 1 && In(t, p.b.head[1..]) && r < p.b.cols
    ensures |Lead(p.a.head)[1..]| == |Lead(t)|
    ensures In(Bcast(Lead(p.a.head)[1..], Lead(t)) + [r], p.a.head[1..])
  {
    hide Bcast;
    var la, lb := Lead(p.a.head)[1..], Lead(p.b.head)[1..];
    TailBroadcasts(Lead(p.a.head), Lead(p.b.head));
    assert In(Lead(t), lb);
    BcastIn(la, lb, Lead(t));
    assert la + [Row(p.a.head)] == p.a.head[1..];
    InAppend(Bcast(la, Lead(t)), la, r, Row(p.a.head));
  }

  lemma JoinedPlace(ps: seq<Lora>, x: nat)
    requires AllWellFormed(ps) && Join(ps).Some? && Joinable(ps) && |ps[0].b.head| > 1 && x < Sum(Firsts(Bs(ps)))
    ensures var l := Locate(Firsts(Bs(ps)), x); var y := if Sum(Firsts(As(ps))) == 1 then 0 else x;
      && y < Sum(Firsts(As(ps)))
      && Locate(Firsts(As(ps)), y) == (l.0, if ps[l.0].a.head[0] == 1 then 0 else l.1)
  {
    hide Joined;
    var a, b := Firsts(As(ps)), Firsts(Bs(ps));
    if Matched(ps) {
      SameFirsts(ps);
    }
    if Sum(a) == 1 {
      var l := Locate(b, x);
      JoinTails(ps);
      LeadFirst(ps[l.0]);
      assert a[l.0] == ps[l.0].a.head[0] && b[l.0] == ps[l.0].b.head[0];
      LocateOnly(a, l.0);
    }
  }

  /** In a list with the sum one, the one non-zero number is found at position zero. */
  lemma {:induction false} LocateOnly(cuts: seq<nat>, k: nat)
    requires Sum(cuts) == 1 && k < |cuts| && cuts[k] > 0
    ensures cuts[k] == 1 && Locate(cuts, 0) == (k, 0)
    decreases cuts
  {
    if k > 0 {
      SumPart(cuts[1..], k - 1);
      LocateOnly(cuts[1..], k - 1);
    }
  }

  lemma {:induction false} SumPart(cuts: seq<nat>, k: nat)
    requires k < |cuts|
    ensures cuts[k] <= Sum(cuts)
    decreases cuts
  {
    if k > 0 {
      SumPart(cuts[1..], k - 1);
    }
  }

  /** Where the joined pair is not well formed, the factors have no product, or one that has not the shape of the
      joined weight.
   */
  lemma JoinProduct(ps: seq<Lora>)
    requires AllWellFormed(ps) && Join(ps).Some?
    ensures DenseJoin(Ws(ps)).Some?
    ensures var q := Join(ps).value;
      |q.a.head| == |q.b.head| > 0 && (WellFormed(q) <==> ProductShape(q) == Some(DenseJoin(Ws(ps)).value.Shape()))
  {
    hide Materialized, Joined, ProductShape, WellFormed;
    JoinSameTail(ps);
    JoinSameFirsts(ps);
    JoinParts(ps);
    ProductKept(Join(ps).value);
  }

  lemma JoinParts(ps: seq<Lora>)
    requires AllWellFormed(ps) && Join(ps).Some?
    ensures var q, p := Join(ps).value, ps[0];
      && q.a.Valid() && q.b.Valid() && |q.a.head| == |q.b.head| > 0 && q.b.cols == Row(q.a.head) > 0
      && q.b.head == [Sum(Firsts(Bs(ps)))] + p.b.head[1..] && q.a.cols == p.a.cols
      && Ws(ps)[0].head == p.b.head && Ws(ps)[0].cols == p.a.cols
  {
    hide Joined, Materialized;
    var p := ps[0];
    assert p.a == As(ps)[0] && p.b == Bs(ps)[0];
    if |p.b.head| > 1 {
      JoinLead(ps);
    }
  }

  // ---------- joins that misplace rows ----------

  lemma {:induction false} LocateAt(cuts: seq<nat>, k: nat, i: nat)
    requires k < |cuts| && i < cuts[k]
    ensures Sum(cuts[..k]) + i < Sum(cuts) && Locate(cuts, Sum(cuts[..k]) + i) == (k, i)
    decreases cuts
  {
    if k == 0 {
      assert cuts[..0] == [] && Sum([]) == 0;
    } else {
      LocateAt(cuts[1..], k - 1, i);
      assert cuts[..k] == [cuts[0]] + cuts[1..][..k - 1] && cuts[..k][1..] == cuts[1..][..k - 1];
    }
  }

  /** Lists of extents that put every position in the same place are the same, if a one is all that can differ. */
  lemma SamePlaces(a: seq<nat>, b: seq<nat>, k: nat)
    requires |a| == |b| && Sum(a) == Sum(b) && k < |a| && a[k] == 1 != b[k]
    ensures exists x: nat :: x < Sum(a) && Locate(a, x) != Locate(b, x)
  {
    hide Sum;
    if b[k] == 0 {
      LocateAt(a, k, 0);
      var x := Sum(a[..k]) + 0;
      assert Locate(a, x) == (k, 0) && Locate(b, x).1 < b[Locate(b, x).0];
    } else {
      LocateAt(b, k, 1);
      var x := Sum(b[..k]) + 1;
      assert Locate(b, x) == (k, 1) && Locate(a, x).1 < a[Locate(a, x).0];
    }
  }

  /** A joined pair that is well formed but not joinable takes some row of A from a place other than B's. */
  lemma JoinMixes(ps: seq<Lora>)
    requires AllWellFormed(ps) && Join(ps).Some? && WellFormed(Join(ps).value) && !Joinable(ps)
    ensures var a, b := Firsts(As(ps)), Firsts(Bs(ps));
      Sum(a) == Sum(b) && exists x: nat :: x < Sum(a) && Locate(a, x) != Locate(b, x)
  {
    hide Joined, Sum, Locate;
    var a, b := Firsts(As(ps)), Firsts(Bs(ps));
    JoinWellFormed(ps);
    SameFirsts(ps);
    JoinTails(ps);
    var k :| 0 <= k < |a| && a[k] != b[k];
    LeadFirst(ps[k]);
    SamePlaces(a, b, k);
  }

  function Constant(head: seq<nat>, x: real): (t: Tensor)
    requires head != []
    ensures t.Valid() && t.head == head && t.cols == 1
    ensures forall h: Index :: In(h, head) ==> t.At(h, 0) == x
  {
    Build(head, 1, (h: Index, j: nat) => x)
  }

  /** A weight without rows whose A has one, before a weight with two rows. */
  function Misplaced(): (ps: seq<Lora>)
    ensures AllWellFormed(ps)
  {
    hide WellFormed, Constant;
    ConstantWellFormed(0, 1.0);
    ConstantWellFormed(2, 2.0);
    [ConstantPair(0, 1.0), ConstantPair(2, 2.0)]
  }

  /** A weight with `n` rows, all of them the one row of A. */
  function ConstantPair(n: nat, x: real): Lora {
    Lora(Constant([1, 1], x), Constant([n, 1], 1.0))
  }

  lemma ConstantWellFormed(n: nat, x: real)
    ensures WellFormed(ConstantPair(n, x))
  {
    hide Constant;
    assert Lead([1, 1]) == [1] && Lead([n, 1]) == [n];
  }

  /** Empty weights can make the extents add up by chance: the joined pair is then well formed and is not the
      joined weight.
   */
  lemma JoinMisplaces()
    ensures Join(Misplaced()).Some? && WellFormed(Join(Misplaced()).value) && !Joinable(Misplaced())
    ensures DenseJoin(Ws(Misplaced())).Some? && DenseJoin(Ws(Misplaced())) != Some(Materialized(Join(Misplaced()).value))
  {
    hide Join, DenseJoin, Joinable, Materialized, WellFormed, Misplaced;
    MisplacedJoins();
    MisplacedPair();
    MisplacedWhole();
  }

  lemma MisplacedJoins()
    ensures var ps := Misplaced();
      && Join(ps).Some? && WellFormed(Join(ps).value) && !Joinable(ps) && |ps[0].b.head| > 1
      && Join(ps).value.b.head == [2, 1] && Join(ps).value.a.head == [2, 1]
      && Join(ps).value.b.cols == 1 && Join(ps).value.a.cols == 1
      && Join(ps).value.a == Joined(As(ps)) && Join(ps).value.b == Joined(Bs(ps))
  {
    hide Materialized, Joined, Constant;
    var ps := Misplaced();
    MisplacedSums();
    assert [1, 1][1..] == [1] && [0, 1][1..] == [1] && [2, 1][1..] == [1] && [2] + [1] == [2, 1];
    JoinWellFormed(ps);
    JoinLead(ps);
  }

  /** The first row of the pair is made with the row of A of the empty weight, */
  lemma MisplacedPair()
    ensures Join(Misplaced()).Some? && WellFormed(Join(Misplaced()).value)
    ensures Materialized(Join(Misplaced()).value).At([0, 0], 0) == 1.0
  {
    hide Materialized, Joined, Constant, Join, WellFormed;
    var ps := Misplaced();
    MisplacedJoins();
    MisplacedSums();
    assert [1, 1][1..] == [1] && [2, 1][1..] == [1] && [0, 1][1..] == [1] && [0] + [0] == [0, 0];
    var q := Join(ps).value;
    JoinedAt(Bs(ps), 0, [0], 0);
    JoinedAt(As(ps), 0, [0], 0);
    OneTerm(q, [0, 0]);
  }

  /** that of the joined weight with the row of its own. */
  lemma MisplacedWhole()
    ensures DenseJoin(Ws(Misplaced())).Some? && DenseJoin(Ws(Misplaced())).value.At([0, 0], 0) == 2.0
  {
    hide Materialized, Joined, Constant, Join;
    var ps := Misplaced();
    MisplacedJoins();
    MisplacedSums();
    JoinSameTail(ps);
    JoinSameFirsts(ps);
    assert [1, 1][1..] == [1] && [2, 1][1..] == [1] && [0, 1][1..] == [1] && [0] + [0] == [0, 0];
    JoinedAt(Ws(ps), 0, [0], 0);
    OneTerm(ps[1], [0, 0]);
  }

  lemma MisplacedSums()
    ensures var ps := Misplaced();
      && Firsts(As(ps)) == [1, 1] && Firsts(Bs(ps)) == [0, 2] && Sum([1, 1]) == 2 && Sum([0, 2]) == 2
      && Locate([0, 2], 0) == (1, 0) && Locate([1, 1], 0) == (0, 0)
  {
    hide WellFormed, Sum, Locate, Tensor.Valid;
    SmallSums();
  }

  lemma SmallSums()
    ensures Sum([1, 1]) == 2 && Sum([0, 2]) == 2 && Locate([0, 2], 0) == (1, 0) && Locate([1, 1], 0) == (0, 0)
  {
    assert [1, 1][1..] == [1] && [0, 2][1..] == [2] && [1][1..] == [] && [2][1..] == [];
    assert Sum([1]) == 1 && Sum([2]) == 2 && Locate([2], 0) == (0, 0);
  }

  lemma OneTerm(p: Lora, h: Index)
    requires WellFormed(p) && p.b.cols == 1 && p.a.cols == 1 && |p.b.head| == 2 && In(h, p.b.head) && h == [0, 0]
    ensures Materialized(p).At(h, 0) == p.b.At(h, 0) * p.a.At([0, 0], 0)
  {
    hide Materialized;
    MaterializedAt(p, h, 0);
    assert Product(p, h, 0, 1) == 0.0 + Term(p, h, 0, 0);
    assert Bcast(Lead(p.a.head), Lead(h)) + [0] == [0, 0];
  }
}
