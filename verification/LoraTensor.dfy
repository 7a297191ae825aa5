/** A weight held as two factors, W = B @ A, and the operations that act on the factors alone.

    B has the head axes of W and a last axis of extent `rank`; A has a last axis of W's, a row axis of
    extent `rank`, and leading axes that are either W's or of extent one.
 */
module LoraTensor {
  import opened Tensors
  import opened Wrappers

  datatype Lora = Lora(a: Tensor, b: Tensor)

  function Lead(head: seq<nat>): seq<nat>
    requires head != []
  {
    head[..|head| - 1]
  }

  function Row(head: seq<nat>): nat
    requires head != []
  {
    head[|head| - 1]
  }

  /** Each leading extent of A is one or equals that of B. */
  predicate Broadcasts(la: seq<nat>, lb: seq<nat>) {
    |la| == |lb| && forall i :: 0 <= i < |la| ==> la[i] == 1 || la[i] == lb[i]
  }

  predicate Broadcastable(s: seq<nat>, t: seq<nat>) {
    |s| == |t| && forall i :: 0 <= i < |s| ==> s[i] == t[i] || s[i] == 1 || t[i] == 1
  }

  function Joint(s: seq<nat>, t: seq<nat>): (r: seq<nat>)
    requires Broadcastable(s, t)
    ensures |r| == |s| && forall i :: 0 <= i < |r| ==> r[i] == if s[i] == 1 then t[i] else s[i]
  {
    seq(|s|, i requires 0 <= i < |s| => if s[i] == 1 then t[i] else s[i])
  }

  /** The leading axes of a product are those of B exactly when A's broadcast to them. */
  lemma JointIsRight(la: seq<nat>, lb: seq<nat>)
    ensures Broadcasts(la, lb) <==> Broadcastable(la, lb) && Joint(la, lb) == lb
  {
    if Broadcastable(la, lb) && Joint(la, lb) == lb {
      forall i | 0 <= i < |la| ensures la[i] == 1 || la[i] == lb[i] {
        assert Joint(la, lb)[i] == lb[i];
      }
    }
  }

  /** The shape of the matrix product B @ A with broadcast leading axes, if it does not raise. */
  function ProductShape(p: Lora): Option<seq<nat>>
    requires |p.a.head| == |p.b.head| > 0
  {
    var la, lb := Lead(p.a.head), Lead(p.b.head);
    if p.b.cols == Row(p.a.head) && Broadcastable(la, lb) then Some(Joint(la, lb) + [Row(p.b.head), p.a.cols]) else None
  }

  ghost predicate WellFormed(p: Lora) {
    && p.a.Valid() && p.b.Valid()
    && p.b.cols == Row(p.a.head) > 0
    && Broadcasts(Lead(p.a.head), Lead(p.b.head))
  }

  /** Factors whose product exists and has the leading axes of B are a weight, and no others. */
  lemma ProductKept(p: Lora)
    requires p.a.Valid() && p.b.Valid() && |p.a.head| == |p.b.head| && p.b.cols == Row(p.a.head) > 0
    ensures WellFormed(p) <==> ProductShape(p) == Some(p.b.head + [p.a.cols])
  {
    hide Joint, Broadcastable, Broadcasts;
    var la, lb := Lead(p.a.head), Lead(p.b.head);
    JointIsRight(la, lb);
    assert lb + [Row(p.b.head)] == p.b.head && lb + [Row(p.b.head), p.a.cols] == p.b.head + [p.a.cols];
    if Broadcastable(la, lb) && Joint(la, lb) + [Row(p.b.head), p.a.cols] == p.b.head + [p.a.cols] {
      assert Joint(la, lb) == (p.b.head + [p.a.cols])[..|lb|] == lb;
    }
  }

  /** The index into a broadcast shape. */
  function Bcast(shape: seq<nat>, h: Index): (r: Index)
    requires |h| == |shape|
    ensures |r| == |shape|
  {
    seq(|shape|, i requires 0 <= i < |shape| => if shape[i] == 1 then 0 else h[i])
  }

  /** One summand of the matrix product. */
  function Term(p: Lora, h: Index, j: nat, r: nat): real
    requires p.a.head != [] && |h| == |p.a.head|
  {
    p.b.At(h, r) * p.a.At(Bcast(Lead(p.a.head), Lead(h)) + [r], j)
  }

  function Product(p: Lora, h: Index, j: nat, n: nat): real
    requires p.a.head != [] && |h| == |p.a.head|
  {
    if n == 0 then 0.0 else Product(p, h, j, n - 1) + Term(p, h, j, n - 1)
  }

  /** W = B @ A. */
  function Materialized(p: Lora): (w: Tensor)
    requires WellFormed(p)
    ensures w.Valid() && w.head == p.b.head && w.cols == p.a.cols
  {
    Build(p.b.head, p.a.cols, (h: Index, j: nat) => if |h| == |p.a.head| then Product(p, h, j, p.b.cols) else 0.0)
  }

  lemma MaterializedAt(p: Lora, h: Index, j: nat)
    requires WellFormed(p) && In(h, p.b.head) && j < p.a.cols
    ensures Materialized(p).At(h, j) == Product(p, h, j, p.b.cols)
  {
  }

  lemma {:induction false} SameProduct(p: Lora, h: Index, j: nat, q: Lora, g: Index, k: nat, n: nat)
    requires p.a.head != [] && |h| == |p.a.head| && q.a.head != [] && |g| == |q.a.head|
    requires forall r: nat :: r < n ==> Term(p, h, j, r) == Term(q, g, k, r)
    ensures Product(p, h, j, n) == Product(q, g, k, n)
  {
    hide Term;
    if n > 0 {
      SameProduct(p, h, j, q, g, k, n - 1);
    }
  }

  lemma LeadLengths(p: Lora, h: Index)
    requires WellFormed(p) && In(h, p.b.head)
    ensures p.a.head != [] && |p.a.head| == |h| && |Lead(h)| == |Lead(p.a.head)|
  {
  }

  lemma TermFactors(p: Lora, h: Index, j: nat, r: nat)
    requires p.a.head != [] && |h| == |p.a.head| && |Lead(h)| == |Lead(p.a.head)|
    ensures Term(p, h, j, r) == p.b.At(h, r) * p.a.At(Bcast(Lead(p.a.head), Lead(h)) + [r], j)
  {
  }

  /** Entries of two products are equal when the factors' entries are. */
  lemma SameEntry(p: Lora, h: Index, j: nat, q: Lora, g: Index, k: nat)
    requires WellFormed(p) && In(h, p.b.head) && j < p.a.cols
    requires WellFormed(q) && In(g, q.b.head) && k < q.a.cols && p.b.cols == q.b.cols
    requires forall r: nat :: r < p.b.cols ==> q.b.At(g, r) == p.b.At(h, r)
    requires forall r: nat :: r < p.b.cols ==>
               q.a.At(Bcast(Lead(q.a.head), Lead(g)) + [r], k) == p.a.At(Bcast(Lead(p.a.head), Lead(h)) + [r], j)
    ensures Materialized(q).At(g, k) == Materialized(p).At(h, j)
  {
    hide *;
    LeadLengths(p, h);
    LeadLengths(q, g);
    MaterializedAt(p, h, j);
    MaterializedAt(q, g, k);
    forall r: nat | r < p.b.cols ensures Term(p, h, j, r) == Term(q, g, k, r) {
      TermFactors(p, h, j, r);
      TermFactors(q, g, k, r);
    }
    SameProduct(p, h, j, q, g, k, p.b.cols);
  }

  // ---------- selection on both factors ----------

  lemma SelectedStep(n: nat, shape: seq<nat>, e: Entry, es: seq<Entry>)
    requires EntryOk(e, n) && EntriesOk(shape, es)
    ensures EntriesOk([n] + shape, [e] + es)
    ensures SelectedShape([n] + shape, [e] + es) == (if e.Pos? then [] else [Length(e, n)]) + SelectedShape(shape, es)
  {
    hide Length;
    assert ([n] + shape)[1..] == shape && ([e] + es)[1..] == es;
  }

  lemma {:induction false} SelectedAppend(shape: seq<nat>, es: seq<Entry>, n: nat, e: Entry)
    requires EntriesOk(shape, es) && EntryOk(e, n) && e.Slice?
    ensures EntriesOk(shape + [n], es + [e])
    ensures SelectedShape(shape + [n], es + [e]) == SelectedShape(shape, es) + [Length(e, n)]
    decreases shape
  {
    hide Length, SelectedShape;
    if shape == [] {
      SelectedStep(n, [], e, []);
      assert [n] + [] == shape + [n] && [e] + [] == es + [e];
      SelectedNone();
      assert es == [];
    } else {
      SelectedAppend(shape[1..], es[1..], n, e);
      SelectedStep(shape[0], shape[1..] + [n], es[0], es[1..] + [e]);
      SelectedStep(shape[0], shape[1..], es[0], es[1..]);
      assert [shape[0]] + (shape[1..] + [n]) == shape + [n] && [es[0]] + (es[1..] + [e]) == es + [e];
      assert [shape[0]] + shape[1..] == shape && [es[0]] + es[1..] == es;
    }
  }

  lemma SelectedNone()
    ensures SelectedShape([], []) == []
  {
  }

  lemma SourceStep(n: nat, shape: seq<nat>, e: Entry, es: seq<Entry>, h: Index)
    requires EntryOk(e, n) && EntriesOk(shape, es) && |h| == |SelectedShape(shape, es)|
    ensures EntriesOk([n] + shape, [e] + es)
    ensures e.Pos? ==> |h| == |SelectedShape([n] + shape, [e] + es)|
    ensures e.Pos? ==> SourceIndex([n] + shape, [e] + es, h) == [First(e, n)] + SourceIndex(shape, es, h)
    ensures e.Slice? ==> |h| + 1 == |SelectedShape([n] + shape, [e] + es)|
    ensures e.Slice? ==> forall x: nat :: SourceIndex([n] + shape, [e] + es, [x] + h) == [Source(e, n, x)] + SourceIndex(shape, es, h)
  {
    hide Length, Source, First, SelectedShape;
    SelectedStep(n, shape, e, es);
    assert ([n] + shape)[1..] == shape && ([e] + es)[1..] == es;
    forall x: nat | e.Slice? ensures SourceIndex([n] + shape, [e] + es, [x] + h) == [Source(e, n, x)] + SourceIndex(shape, es, h) {
      assert ([x] + h)[1..] == h;
    }
  }

  lemma {:induction false} SourceAppend(shape: seq<nat>, es: seq<Entry>, h: Index, n: nat, e: Entry, x: nat)
    requires EntriesOk(shape, es) && EntryOk(e, n) && e.Slice? && |h| == |SelectedShape(shape, es)|
    ensures EntriesOk(shape + [n], es + [e]) && |SelectedShape(shape + [n], es + [e])| == |h| + 1
    ensures SourceIndex(shape + [n], es + [e], h + [x]) == SourceIndex(shape, es, h) + [Source(e, n, x)]
    decreases shape
  {
    hide Length, Source, First, SelectedShape, SourceIndex;
    SelectedAppend(shape, es, n, e);
    if shape == [] {
      SelectedNone();
      SourceStep(n, [], e, [], []);
      assert [n] + [] == shape + [n] && [e] + [] == es + [e] && es == [] && h == [] && [x] + [] == h + [x];
    } else {
      SelectedStep(shape[0], shape[1..], es[0], es[1..]);
      SelectedAppend(shape[1..], es[1..], n, e);
      assert [shape[0]] + (shape[1..] + [n]) == shape + [n] && [es[0]] + (es[1..] + [e]) == es + [e];
      assert [shape[0]] + shape[1..] == shape && [es[0]] + es[1..] == es;
      var rest := if es[0].Pos? then h else h[1..];
      SourceAppend(shape[1..], es[1..], rest, n, e, x);
      SourceStep(shape[0], shape[1..], es[0], es[1..], rest);
      SourceStep(shape[0], shape[1..] + [n], es[0], es[1..] + [e], rest + [x]);
      if es[0].Slice? {
        assert [h[0]] + rest == h && [h[0]] + (rest + [x]) == h + [x];
      }
    }
  }

  /** The `x`-th element the slice picks from B belongs to the one picked from A. */
  ghost predicate Aligned(a: nat, b: nat, ea: Entry, eb: Entry, x: nat)
    requires EntryOk(ea, a) && EntryOk(eb, b) && ea.Slice?
  {
    Source(ea, a, if Length(ea, a) == 1 then 0 else x) == if a == 1 then 0 else Source(eb, b, x)
  }

  /** On an axis of extent `a` in A and `b` in B the entry `ea` picks from A what belongs to the
      element that `eb` picks from B. */
  ghost predicate AxisAgrees(a: nat, b: nat, ea: Entry, eb: Entry) {
    && EntryOk(ea, a) && EntryOk(eb, b) && ea.Pos? == eb.Pos?
    && (ea.Pos? ==> First(ea, a) == if a == 1 then 0 else First(eb, b))
    && (ea.Slice? ==>
          && (Length(ea, a) == 1 || Length(ea, a) == Length(eb, b))
          && forall x: nat :: x < Length(eb, b) ==> Aligned(a, b, ea, eb, x))
  }

  ghost predicate Agrees(la: seq<nat>, lb: seq<nat>, ea: seq<Entry>, eb: seq<Entry>) {
    && |la| == |lb| == |ea| == |eb|
    && forall i :: 0 <= i < |la| ==> AxisAgrees(la[i], lb[i], ea[i], eb[i])
  }

  lemma AgreesOk(la: seq<nat>, lb: seq<nat>, ea: seq<Entry>, eb: seq<Entry>)
    requires Agrees(la, lb, ea, eb)
    ensures EntriesOk(la, ea) && EntriesOk(lb, eb)
  {
    forall i | 0 <= i < |la| ensures EntryOk(ea[i], la[i]) && EntryOk(eb[i], lb[i]) {
      assert AxisAgrees(la[i], lb[i], ea[i], eb[i]);
    }
  }

  lemma AgreesTail(la: seq<nat>, lb: seq<nat>, ea: seq<Entry>, eb: seq<Entry>)
    requires la != [] && Agrees(la, lb, ea, eb)
    ensures AxisAgrees(la[0], lb[0], ea[0], eb[0]) && Agrees(la[1..], lb[1..], ea[1..], eb[1..])
  {
    hide AxisAgrees;
  }

  lemma BcastStep(n: nat, shape: seq<nat>, x: nat, h: Index)
    requires |h| == |shape|
    ensures Bcast([n] + shape, [x] + h) == [if n == 1 then 0 else x] + Bcast(shape, h)
  {
  }

  lemma BroadcastsStep(x: nat, la: seq<nat>, y: nat, lb: seq<nat>)
    requires Broadcasts(la, lb) && (x == 1 || x == y)
    ensures Broadcasts([x] + la, [y] + lb)
  {
  }

  lemma InStep(x: nat, h: Index, n: nat, shape: seq<nat>)
    ensures In([x] + h, [n] + shape) <==> x < n && In(h, shape)
  {
    if In([x] + h, [n] + shape) {
      assert ([x] + h)[0] < ([n] + shape)[0];
      forall i | 0 <= i < |h| ensures h[i] < shape[i] {
        assert ([x] + h)[i + 1] < ([n] + shape)[i + 1];
      }
    }
  }

  lemma {:induction false} BroadcastsSelected(la: seq<nat>, lb: seq<nat>, ea: seq<Entry>, eb: seq<Entry>)
    requires Agrees(la, lb, ea, eb) && EntriesOk(la, ea) && EntriesOk(lb, eb)
    ensures Broadcasts(SelectedShape(la, ea), SelectedShape(lb, eb))
    decreases la
  {
    hide Length, Source, First, SelectedShape, Broadcasts;
    if la == [] {
      assert lb == [] && ea == [] && eb == [];
      SelectedNone();
      BroadcastsNone();
    } else {
      AgreesTail(la, lb, ea, eb);
      BroadcastsSelected(la[1..], lb[1..], ea[1..], eb[1..]);
      assert [la[0]] + la[1..] == la && [lb[0]] + lb[1..] == lb && [ea[0]] + ea[1..] == ea && [eb[0]] + eb[1..] == eb;
      SelectedStep(la[0], la[1..], ea[0], ea[1..]);
      SelectedStep(lb[0], lb[1..], eb[0], eb[1..]);
      if ea[0].Slice? {
        BroadcastsStep(Length(ea[0], la[0]), SelectedShape(la[1..], ea[1..]), Length(eb[0], lb[0]), SelectedShape(lb[1..], eb[1..]));
      } else {
        assert [] + SelectedShape(la[1..], ea[1..]) == SelectedShape(la[1..], ea[1..]);
        assert [] + SelectedShape(lb[1..], eb[1..]) == SelectedShape(lb[1..], eb[1..]);
      }
    }
  }

  lemma BroadcastsNone()
    ensures Broadcasts([], [])
  {
  }

  lemma BcastNone(h: Index)
    requires h == []
    ensures Bcast([], h) == []
  {
  }

  /** Selecting and then broadcasting reaches the element that broadcasting and then selecting does. */
  ghost predicate Commutes(la: seq<nat>, lb: seq<nat>, ea: seq<Entry>, eb: seq<Entry>, h: Index)
    requires |la| == |lb| && EntriesOk(la, ea) && EntriesOk(lb, eb)
    requires |h| == |SelectedShape(lb, eb)| == |SelectedShape(la, ea)|
  {
    SourceIndex(la, ea, Bcast(SelectedShape(la, ea), h)) == Bcast(la, SourceIndex(lb, eb, h))
  }

  lemma {:induction false} BcastSelected(la: seq<nat>, lb: seq<nat>, ea: seq<Entry>, eb: seq<Entry>, h: Index)
    requires Agrees(la, lb, ea, eb) && EntriesOk(la, ea) && EntriesOk(lb, eb)
    requires In(h, SelectedShape(lb, eb)) && |SelectedShape(la, ea)| == |h|
    ensures |h| == |SelectedShape(lb, eb)| && Commutes(la, lb, ea, eb, h)
    decreases la
  {
    hide Length, Source, First, SelectedShape, SourceIndex, Bcast, Broadcasts, AxisAgrees, In;
    if la == [] {
      assert lb == [] && ea == [] && eb == [];
      SelectedNone();
      InLength(h, []);
      BcastNone(h);
      SourceNone();
      BcastNone([]);
    } else {
      AgreesTail(la, lb, ea, eb);
      assert [la[0]] + la[1..] == la && [lb[0]] + lb[1..] == lb && [ea[0]] + ea[1..] == ea && [eb[0]] + eb[1..] == eb;
      var rest := if ea[0].Slice? && h != [] then h[1..] else h;
      InLength(h, SelectedShape(lb, eb));
      BcastSelectedStep(la[0], la[1..], lb[0], lb[1..], ea[0], ea[1..], eb[0], eb[1..], h, rest);
      BcastSelected(la[1..], lb[1..], ea[1..], eb[1..], rest);
    }
  }

  lemma SourceNone()
    ensures SelectedShape([], []) == [] && SourceIndex([], [], []) == []
  {
  }

  lemma InLength(h: Index, shape: seq<nat>)
    requires In(h, shape)
    ensures |h| == |shape|
  {
  }

  lemma BcastSelectedStep(a: nat, la: seq<nat>, b: nat, lb: seq<nat>, ea: Entry, esa: seq<Entry>, eb: Entry, esb: seq<Entry>,
                          h: Index, rest: Index)
    requires rest == if ea.Slice? && h != [] then h[1..] else h
    requires AxisAgrees(a, b, ea, eb) && |la| == |lb| && EntriesOk(la, esa) && EntriesOk(lb, esb)
    requires EntriesOk([a] + la, [ea] + esa) && EntriesOk([b] + lb, [eb] + esb)
    requires In(h, SelectedShape([b] + lb, [eb] + esb)) && |SelectedShape([a] + la, [ea] + esa)| == |h|
    ensures In(rest, SelectedShape(lb, esb)) && |SelectedShape(la, esa)| == |rest|
    ensures Commutes(la, lb, esa, esb, rest) ==> Commutes([a] + la, [b] + lb, [ea] + esa, [eb] + esb, h)
  {
    hide Length, Source, First, SelectedShape, SourceIndex, Bcast, Broadcasts, In, Agrees, EntriesOk;
    SelectedStep(a, la, ea, esa);
    SelectedStep(b, lb, eb, esb);
    InLength(h, SelectedShape([b] + lb, [eb] + esb));
    var sa := SelectedShape(la, esa);
    if ea.Pos? {
      assert [] + SelectedShape(lb, esb) == SelectedShape(lb, esb) && [] + sa == sa;
      SourceStep(b, lb, eb, esb, h);
      SourceStep(a, la, ea, esa, Bcast(sa, h));
      BcastStep(a, la, First(eb, b), SourceIndex(lb, esb, h));
    } else {
      var x := h[0];
      assert [x] + rest == h;
      InStep(x, rest, Length(eb, b), SelectedShape(lb, esb));
      InLength(rest, SelectedShape(lb, esb));
      BcastStep(Length(ea, a), sa, x, rest);
      SourceStep(b, lb, eb, esb, rest);
      SourceStep(a, la, ea, esa, Bcast(sa, rest));
      BcastStep(a, la, Source(eb, b, x), SourceIndex(lb, esb, rest));
      assert Aligned(a, b, ea, eb, x);
    }
  }

  ghost predicate Selectable(p: Lora, ea: seq<Entry>, eb: seq<Entry>, row: Entry, last: Entry) {
    && p.a.Valid() && p.b.Valid()
    && EntriesOk(p.a.head, ea + [FULL]) && EntryOk(last, p.a.cols) && last.Slice? && SelectedShape(p.a.head, ea + [FULL]) != []
    && EntriesOk(p.b.head, eb + [row]) && SelectedShape(p.b.head, eb + [row]) != []
  }

  /** The last entry goes to A, the row entry to B, the leading ones to each. */
  function Selected(p: Lora, ea: seq<Entry>, eb: seq<Entry>, row: Entry, last: Entry): Lora
    requires Selectable(p, ea, eb, row, last)
  {
    FullSlice(p.b.cols);
    Lora(Select(p.a, ea + [FULL], last), Select(p.b, eb + [row], FULL))
  }

  lemma IsSelectable(p: Lora, ea: seq<Entry>, eb: seq<Entry>, row: Entry, last: Entry)
    requires p.a.Valid() && p.b.Valid()
    requires EntriesOk(Lead(p.a.head), ea) && EntriesOk(Lead(p.b.head), eb)
    requires EntryOk(row, Row(p.b.head)) && row.Slice? && EntryOk(last, p.a.cols) && last.Slice?
    ensures Selectable(p, ea, eb, row, last)
    ensures SelectedShape(p.a.head, ea + [FULL]) == SelectedShape(Lead(p.a.head), ea) + [Row(p.a.head)]
    ensures SelectedShape(p.b.head, eb + [row]) == SelectedShape(Lead(p.b.head), eb) + [Length(row, Row(p.b.head))]
  {
    hide SelectedShape, Length;
    FullSlice(Row(p.a.head));
    assert Lead(p.a.head) + [Row(p.a.head)] == p.a.head && Lead(p.b.head) + [Row(p.b.head)] == p.b.head;
    SelectedAppend(Lead(p.a.head), ea, Row(p.a.head), FULL);
    SelectedAppend(Lead(p.b.head), eb, Row(p.b.head), row);
  }

  lemma BcastIn(la: seq<nat>, lb: seq<nat>, h: Index)
    requires Broadcasts(la, lb) && In(h, lb)
    ensures In(Bcast(la, h), la)
  {
  }

  lemma SelectedA(p: Lora, ea: seq<Entry>, eb: seq<Entry>, row: Entry, last: Entry, h: Index, r: nat, j: nat)
    requires Selectable(p, ea, eb, row, last) && EntriesOk(Lead(p.a.head), ea)
    requires In(h, SelectedShape(Lead(p.a.head), ea)) && r < Row(p.a.head) && j < Length(last, p.a.cols)
    ensures Selected(p, ea, eb, row, last).a.At(h + [r], j)
         == p.a.At(SourceIndex(Lead(p.a.head), ea, h) + [r], Source(last, p.a.cols, j))
  {
    hide SelectedShape, Length, SourceIndex, Source, Select;
    FullSlice(Row(p.a.head));
    SourceFull(Row(p.a.head), r);
    assert Lead(p.a.head) + [Row(p.a.head)] == p.a.head;
    SelectedAppend(Lead(p.a.head), ea, Row(p.a.head), FULL);
    SourceAppend(Lead(p.a.head), ea, h, Row(p.a.head), FULL, r);
    InAppend(h, SelectedShape(Lead(p.a.head), ea), r, Row(p.a.head));
    SelectAt(p.a, ea + [FULL], last, h + [r], j);
  }

  lemma SourceFull(n: nat, x: nat)
    ensures EntryOk(FULL, n) && Source(FULL, n, x) == x && Length(FULL, n) == n
  {
  }

  lemma InAppend(h: Index, shape: seq<nat>, x: nat, n: nat)
    ensures In(h + [x], shape + [n]) <==> In(h, shape) && x < n
  {
    if In(h + [x], shape + [n]) {
      assert (h + [x])[|h|] < (shape + [n])[|h|];
      forall i | 0 <= i < |h| ensures h[i] < shape[i] {
        assert (h + [x])[i] < (shape + [n])[i];
      }
    }
  }

  lemma SelectedB(p: Lora, ea: seq<Entry>, eb: seq<Entry>, row: Entry, last: Entry, h: Index, x: nat, r: nat)
    requires Selectable(p, ea, eb, row, last) && EntriesOk(Lead(p.b.head), eb)
    requires row.Slice? && EntryOk(row, Row(p.b.head))
    requires In(h, SelectedShape(Lead(p.b.head), eb)) && x < Length(row, Row(p.b.head)) && r < p.b.cols
    ensures Selected(p, ea, eb, row, last).b.At(h + [x], r)
         == p.b.At(SourceIndex(Lead(p.b.head), eb, h) + [Source(row, Row(p.b.head), x)], r)
  {
    hide SelectedShape, Length, SourceIndex, Source, Select;
    FullSlice(p.b.cols);
    SourceFull(p.b.cols, r);
    assert Lead(p.b.head) + [Row(p.b.head)] == p.b.head;
    SelectedAppend(Lead(p.b.head), eb, Row(p.b.head), row);
    SourceAppend(Lead(p.b.head), eb, h, Row(p.b.head), row, x);
    InAppend(h, SelectedShape(Lead(p.b.head), eb), x, Length(row, Row(p.b.head)));
    SelectAt(p.b, eb + [row], FULL, h + [x], r);
  }

  lemma SelectedWellFormed(p: Lora, ea: seq<Entry>, eb: seq<Entry>, row: Entry, last: Entry)
    requires WellFormed(p) && EntriesOk(Lead(p.a.head), ea) && EntriesOk(Lead(p.b.head), eb)
    requires EntryOk(row, Row(p.b.head)) && row.Slice? && EntryOk(last, p.a.cols) && last.Slice?
    ensures Selectable(p, ea, eb, row, last)
    ensures var q := Selected(p, ea, eb, row, last);
      && q.a.Valid() && q.b.Valid() && q.a.head != [] && q.b.head != []
      && Lead(q.a.head) == SelectedShape(Lead(p.a.head), ea) && Lead(q.b.head) == SelectedShape(Lead(p.b.head), eb)
      && q.b.cols == Row(q.a.head) == p.b.cols && Row(q.b.head) == Length(row, Row(p.b.head))
      && q.b.head == Lead(q.b.head) + [Row(q.b.head)] && q.a.cols == Length(last, p.a.cols)
      && (WellFormed(q) <==> Broadcasts(SelectedShape(Lead(p.a.head), ea), SelectedShape(Lead(p.b.head), eb)))
  {
    hide SelectedShape, Length;
    IsSelectable(p, ea, eb, row, last);
    SourceFull(p.b.cols, 0);
  }

  /** Factors that select matching entries materialise to the selection from the product. */
  lemma PairSelected(p: Lora, ea: seq<Entry>, eb: seq<Entry>, row: Entry, last: Entry)
    requires WellFormed(p) && Agrees(Lead(p.a.head), Lead(p.b.head), ea, eb)
    requires EntryOk(row, Row(p.b.head)) && row.Slice? && EntryOk(last, p.a.cols) && last.Slice?
    ensures Selectable(p, ea, eb, row, last) && WellFormed(Selected(p, ea, eb, row, last))
    ensures Materialized(Selected(p, ea, eb, row, last)) == Select(Materialized(p), eb + [row], last)
  {
    hide SelectedShape, Length, Select, Materialized, Agrees, Selected, Lead, Row;
    AgreesOk(Lead(p.a.head), Lead(p.b.head), ea, eb);
    SelectedWellFormed(p, ea, eb, row, last);
    BroadcastsSelected(Lead(p.a.head), Lead(p.b.head), ea, eb);
    var q, t := Selected(p, ea, eb, row, last), Select(Materialized(p), eb + [row], last);
    IsSelectable(p, ea, eb, row, last);
    forall h: Index, j: nat | In(h, q.b.head) && j < q.a.cols ensures Materialized(q).At(h, j) == t.At(h, j) {
      PairSelectedAt(p, ea, eb, row, last, h, j);
    }
    SameTensor(Materialized(q), t);
  }

  lemma PairSelectedAt(p: Lora, ea: seq<Entry>, eb: seq<Entry>, row: Entry, last: Entry, g: Index, k: nat)
    requires WellFormed(p) && Agrees(Lead(p.a.head), Lead(p.b.head), ea, eb)
    requires EntryOk(row, Row(p.b.head)) && row.Slice? && EntryOk(last, p.a.cols) && last.Slice?
    requires Selectable(p, ea, eb, row, last) && WellFormed(Selected(p, ea, eb, row, last))
    requires In(g, Selected(p, ea, eb, row, last).b.head) && k < Selected(p, ea, eb, row, last).a.cols
    ensures Materialized(Selected(p, ea, eb, row, last)).At(g, k) == Select(Materialized(p), eb + [row], last).At(g, k)
  {
    hide SelectedShape, Length, Select, Materialized, Agrees, Selected, SourceIndex, Source;
    var la, lb := Lead(p.a.head), Lead(p.b.head);
    AgreesOk(la, lb, ea, eb);
    SelectedWellFormed(p, ea, eb, row, last);
    IsSelectable(p, ea, eb, row, last);
    var q := Selected(p, ea, eb, row, last);
    var x, h := g[|g| - 1], g[..|g| - 1];
    assert h + [x] == g;
    InAppend(h, SelectedShape(lb, eb), x, Length(row, Row(p.b.head)));
    SourceAppend(lb, eb, h, Row(p.b.head), row, x);
    assert lb + [Row(p.b.head)] == p.b.head;
    SelectAt(Materialized(p), eb + [row], last, g, k);
    BcastIn(SelectedShape(la, ea), SelectedShape(lb, eb), h);
    BcastSelected(la, lb, ea, eb, h);
    var src := SourceIndex(lb, eb, h) + [Source(row, Row(p.b.head), x)];
    forall r: nat | r < p.b.cols
      ensures q.b.At(g, r) == p.b.At(src, r)
      ensures q.a.At(Bcast(Lead(q.a.head), Lead(g)) + [r], k) == p.a.At(Bcast(la, Lead(src)) + [r], Source(last, p.a.cols, k))
    {
      SelectedB(p, ea, eb, row, last, h, x, r);
      SelectedA(p, ea, eb, row, last, Bcast(SelectedShape(la, ea), h), r, k);
    }
    SameEntry(p, src, Source(last, p.a.cols, k), q, g, k);
  }
}
