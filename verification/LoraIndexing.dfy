/** Index expressions and splits on a factored weight: which entries go to which factor. */
module LoraIndexing {
  import opened LoraTensor
  import opened Tensors
  import opened Wrappers

  /** The constructor: the factors have as many axes, and A has a row for each column of B. */
  function Checked(a: Tensor, b: Tensor): (r: Option<Lora>)
    ensures r == Some(Lora(a, b)) || r == None
    ensures r.Some? <==> |a.head| == |b.head| && a.head != [] && a.head[|a.head| - 1] == b.cols
  {
    if |a.head| == |b.head| && a.head != [] && a.head[|a.head| - 1] == b.cols then Some(Lora(a, b)) else None
  }

  predicate IsSlice(e: Entry) {
    e.Slice? && e.step > 0
  }

  function Fulls(n: nat): (r: seq<Entry>)
    ensures |r| == n && forall i :: 0 <= i < n ==> r[i] == FULL
  {
    seq(n, i => FULL)
  }

  // ---------- one position or one slice ----------

  /** `self[i]` */
  function AtPosition(p: Lora, i: int): Option<Lora>
    requires WellFormed(p)
  {
    var la, lb := Lead(p.a.head), Lead(p.b.head);
    if la == [] || !EntryOk(Pos(i), la[0]) || !EntryOk(Pos(i), lb[0]) then None
    else
      var es := [Pos(i)] + Fulls(|la| - 1);
      IsSelectable(p, es, es, FULL, FULL);
      var q := Selected(p, es, es, FULL, FULL);
      Checked(q.a, q.b)
  }

  /** `self[lo:hi:step]` */
  function Sliced(p: Lora, s: Entry): Option<Lora>
    requires WellFormed(p) && IsSlice(s)
  {
    var la, lb := Lead(p.a.head), Lead(p.b.head);
    if la == [] then
      IsSelectable(p, [], [], s, FULL);
      var q := Selected(p, [], [], s, FULL);
      Checked(p.a, q.b)
    else
      var es := [s] + Fulls(|la| - 1);
      IsSelectable(p, es, es, FULL, FULL);
      var q := Selected(p, es, es, FULL, FULL);
      Checked(q.a, q.b)
  }

  // ---------- tuples ----------

  /** What a leading entry becomes for an axis of extent `n` in A: `j % n`, or the full slice. */
  function EntryA(e: Entry, n: nat): Entry
    requires e.Pos? ==> n > 0
  {
    if e.Pos? then Pos(e.i % n) else FULL
  }

  function EntriesA(la: seq<nat>, es: seq<Entry>): (r: seq<Entry>)
    requires |es| == |la| && forall i :: 0 <= i < |la| ==> es[i].Pos? ==> la[i] > 0
    ensures |r| == |la|
  {
    seq(|la|, i requires 0 <= i < |la| => EntryA(es[i], la[i]))
  }

  /** The tuple filled up with full slices. */
  function Padded(es: seq<Entry>, ndim: nat): (r: seq<Entry>)
    requires |es| <= ndim
    ensures |r| == ndim && es <= r
  {
    es + Fulls(ndim - |es|)
  }

  lemma PaddedSlices(es: seq<Entry>, ndim: nat)
    requires |es| <= ndim
    ensures forall i :: 0 <= i < ndim ==> Padded(es, ndim)[i] == if i < |es| then es[i] else FULL
    ensures IsSlice(FULL)
  {
  }

  /** `self[e0, e1, ...]` with slices on the row and column axes. */
  function Picked(p: Lora, es: seq<Entry>): Option<Lora>
    requires WellFormed(p)
    requires forall i :: 0 <= i < |es| && |p.a.head| - 1 <= i ==> IsSlice(es[i])
  {
    var la, lb, k := Lead(p.a.head), Lead(p.b.head), |p.a.head| - 1;
    if |es| == 0 || |es| > k + 2 then None
    else
      var all := Padded(es, k + 2);
      var lead, row, last := all[..k], all[k], all[k + 1];
      assert IsSlice(row) && IsSlice(last) by { PaddedSlices(es, k + 2); }
      if !EntriesOk(lb, lead) || exists i :: 0 <= i < k && lead[i].Pos? && la[i] == 0 then None
      else
        EntriesAOk(la, lb, lead);
        IsSelectable(p, EntriesA(la, lead), lead, row, last);
        var q := Selected(p, EntriesA(la, lead), lead, row, last);
        Checked(q.a, q.b)
  }

  lemma EntriesAOk(la: seq<nat>, lb: seq<nat>, lead: seq<Entry>)
    requires |la| == |lb| == |lead| && EntriesOk(lb, lead)
    requires forall i :: 0 <= i < |la| ==> lead[i].Pos? ==> la[i] > 0
    ensures EntriesOk(la, EntriesA(la, lead))
  {
  }

  lemma CheckedPair(q: Lora, n: nat, rank: nat)
    requires q.a.head != [] && q.b.head != [] && |Lead(q.a.head)| == n == |Lead(q.b.head)|
    requires Row(q.a.head) == rank == q.b.cols
    ensures Checked(q.a, q.b) == Some(q)
  {
  }

  // ---------- which selections stay well formed ----------

  ghost predicate Fits(a: nat, b: nat, ea: Entry, eb: Entry)
    requires EntryOk(ea, a) && EntryOk(eb, b)
  {
    ea.Slice? && eb.Slice? ==> Length(ea, a) == 1 || Length(ea, a) == Length(eb, b)
  }

  ghost predicate AllFit(la: seq<nat>, lb: seq<nat>, ea: seq<Entry>, eb: seq<Entry>)
    requires |la| == |lb| && EntriesOk(la, ea) && EntriesOk(lb, eb)
  {
    forall i :: 0 <= i < |la| ==> Fits(la[i], lb[i], ea[i], eb[i])
  }

  /** The selected factors still broadcast exactly when they do on every sliced axis. */
  lemma {:induction false} SelectedBroadcasts(la: seq<nat>, lb: seq<nat>, ea: seq<Entry>, eb: seq<Entry>)
    requires |la| == |lb| && EntriesOk(la, ea) && EntriesOk(lb, eb)
    requires forall i :: 0 <= i < |la| ==> ea[i].Pos? == eb[i].Pos?
    ensures |SelectedShape(la, ea)| == |SelectedShape(lb, eb)|
    ensures Broadcasts(SelectedShape(la, ea), SelectedShape(lb, eb)) <==> AllFit(la, lb, ea, eb)
    decreases la
  {
    hide Length, SelectedShape, Broadcasts;
    if la == [] {
      assert lb == [] && ea == [] && eb == [];
      SelectedNone();
      BroadcastsNone();
    } else {
      SelectedBroadcasts(la[1..], lb[1..], ea[1..], eb[1..]);
      assert [la[0]] + la[1..] == la && [lb[0]] + lb[1..] == lb && [ea[0]] + ea[1..] == ea && [eb[0]] + eb[1..] == eb;
      SelectedStep(la[0], la[1..], ea[0], ea[1..]);
      SelectedStep(lb[0], lb[1..], eb[0], eb[1..]);
      var sa, sb := SelectedShape(la[1..], ea[1..]), SelectedShape(lb[1..], eb[1..]);
      AllFitStep(la, lb, ea, eb);
      if ea[0].Slice? {
        BroadcastsCons(Length(ea[0], la[0]), sa, Length(eb[0], lb[0]), sb);
      } else {
        assert [] + sa == sa && [] + sb == sb;
      }
    }
  }

  lemma BroadcastsCons(x: nat, la: seq<nat>, y: nat, lb: seq<nat>)
    ensures Broadcasts([x] + la, [y] + lb) <==> Broadcasts(la, lb) && (x == 1 || x == y)
  {
    if Broadcasts([x] + la, [y] + lb) {
      assert ([x] + la)[0] == x && ([y] + lb)[0] == y;
      forall i | 0 <= i < |la| ensures la[i] == 1 || la[i] == lb[i] {
        assert ([x] + la)[i + 1] == la[i] && ([y] + lb)[i + 1] == lb[i];
      }
    }
  }

  lemma AllFitStep(la: seq<nat>, lb: seq<nat>, ea: seq<Entry>, eb: seq<Entry>)
    requires la != [] && |la| == |lb| && EntriesOk(la, ea) && EntriesOk(lb, eb)
    ensures AllFit(la, lb, ea, eb)
       <==> Fits(la[0], lb[0], ea[0], eb[0]) && AllFit(la[1..], lb[1..], ea[1..], eb[1..])
  {
    hide Fits;
    if Fits(la[0], lb[0], ea[0], eb[0]) && AllFit(la[1..], lb[1..], ea[1..], eb[1..]) {
      forall i | 0 <= i < |la| ensures Fits(la[i], lb[i], ea[i], eb[i]) {
        assert i > 0 ==> la[i] == la[1..][i - 1] && Fits(la[1..][i - 1], lb[1..][i - 1], ea[1..][i - 1], eb[1..][i - 1]);
      }
    }
  }

  /** The entries a position takes on the two factors' axes. */
  lemma PosAgrees(a: nat, b: nat, ea: Entry, eb: Entry)
    requires (a == 1 || a == b) && EntryOk(eb, b) && eb.Pos? && EntryOk(ea, a)
    requires ea == eb || (a > 0 && ea == EntryA(eb, a))
    ensures AxisAgrees(a, b, ea, eb)
  {
    if ea != eb && a == b {
      ModWrapped(eb.i, a);
    }
  }

  /** `j % n` is Python's reading of a negative position. */
  lemma ModWrapped(j: int, n: nat)
    requires n > 0 && 0 <= j + n && j < n
    ensures j % n == Wrapped(j, n)
  {
    if j < 0 {
      assert j == -1 * n + (j + n);
    }
  }

  lemma SliceAgrees(a: nat, b: nat, ea: Entry, eb: Entry)
    requires (a == 1 || a == b) && EntryOk(ea, a) && EntryOk(eb, b) && eb.Slice?
    requires (ea == eb || ea == FULL) && Fits(a, b, ea, eb)
    ensures AxisAgrees(a, b, ea, eb)
  {
    hide Length, Source;
    if a == 1 {
      forall x: nat | x < Length(eb, b) ensures Aligned(a, b, ea, eb, x) {
        var y := if Length(ea, a) == 1 then 0 else x;
        assert y < Length(ea, a);
        SourceIn(ea, a, y);
      }
    } else if ea == FULL && ea != eb {
      FullFits(a, eb);
    } else if Length(ea, a) == 1 {
      assert ea == eb;
    }
  }

  lemma FullFits(n: nat, e: Entry)
    requires EntryOk(e, n) && e.Slice? && Fits(n, n, FULL, e) && n != 1
    ensures AxisAgrees(n, n, FULL, e)
  {
    hide Length, Source;
    SourceFull(n, 0);
    forall x: nat | x < Length(e, n) ensures Aligned(n, n, FULL, e, x) {
      SourceFull(n, x);
      WholeSlice(e, n, x);
    }
  }

  // ---------- selecting everything ----------

  lemma {:induction false} FullSelection(shape: seq<nat>)
    ensures EntriesOk(shape, Fulls(|shape|)) && SelectedShape(shape, Fulls(|shape|)) == shape
    ensures forall h: Index | |h| == |shape| :: SourceIndex(shape, Fulls(|shape|), h) == h
    decreases shape
  {
    hide Length, Source, SelectedShape, SourceIndex, Fulls;
    var n := |shape|;
    if shape == [] {
      SelectedNone();
      SourceNone();
      assert Fulls(n) == [] && forall h: Index | |h| == 0 :: h == [];
    } else {
      FullSelection(shape[1..]);
      SourceFull(shape[0], 0);
      assert [shape[0]] + shape[1..] == shape && [FULL] + Fulls(n - 1) == Fulls(n);
      SelectedStep(shape[0], shape[1..], FULL, Fulls(n - 1));
      forall h: Index | |h| == n ensures SourceIndex(shape, Fulls(n), h) == h {
        SourceStep(shape[0], shape[1..], FULL, Fulls(n - 1), h[1..]);
        SourceFull(shape[0], h[0]);
        assert [h[0]] + h[1..] == h;
      }
    }
  }

  lemma SelectAll(t: Tensor)
    requires t.Valid()
    ensures EntriesOk(t.head, Fulls(|t.head|)) && SelectedShape(t.head, Fulls(|t.head|)) == t.head && EntryOk(FULL, t.cols)
    ensures Select(t, Fulls(|t.head|), FULL) == t
  {
    hide Length, Source, SelectedShape, SourceIndex, Fulls, Select;
    FullSelection(t.head);
    SourceFull(t.cols, 0);
    var u := Select(t, Fulls(|t.head|), FULL);
    forall h: Index, j: nat | In(h, t.head) && j < t.cols ensures u.At(h, j) == t.At(h, j) {
      InLength(h, t.head);
      SelectAt(t, Fulls(|t.head|), FULL, h, j);
      SourceFull(t.cols, j);
    }
    SameTensor(u, t);
  }

  /** With full slices on the leading axes and on A's columns A is unchanged, and likewise B. */
  lemma Untouched(p: Lora, row: Entry, last: Entry)
    requires WellFormed(p) && EntryOk(row, Row(p.b.head)) && row.Slice? && EntryOk(last, p.a.cols) && last.Slice?
    ensures var k := |p.a.head| - 1; Selectable(p, Fulls(k), Fulls(k), row, last)
    ensures var k := |p.a.head| - 1; last == FULL ==> Selected(p, Fulls(k), Fulls(k), row, last).a == p.a
    ensures var k := |p.a.head| - 1; row == FULL ==> Selected(p, Fulls(k), Fulls(k), row, last).b == p.b
  {
    hide SelectedShape, Length, Select;
    var k := |p.a.head| - 1;
    FullSelection(Lead(p.a.head));
    FullSelection(Lead(p.b.head));
    IsSelectable(p, Fulls(k), Fulls(k), row, last);
    assert Fulls(k) + [FULL] == Fulls(k + 1);
    SelectAll(p.a);
    SelectAll(p.b);
  }

  lemma FullsAgree(la: seq<nat>, lb: seq<nat>)
    requires Broadcasts(la, lb)
    ensures Agrees(la, lb, Fulls(|la|), Fulls(|la|))
  {
    hide AxisAgrees, Length;
    forall i | 0 <= i < |la| ensures AxisAgrees(la[i], lb[i], FULL, FULL) {
      FullAgrees(la[i], lb[i]);
    }
  }

  lemma FullAgrees(a: nat, b: nat)
    requires a == 1 || a == b
    ensures EntryOk(FULL, a) && EntryOk(FULL, b) && Fits(a, b, FULL, FULL) && AxisAgrees(a, b, FULL, FULL)
  {
    SourceFull(a, 0);
    SourceFull(b, 0);
    SliceAgrees(a, b, FULL, FULL);
  }

  // ---------- main results ----------

  /** A single position never breaks the pair; it raises for a two-axis weight, for a position outside
      W, and for a broadcast axis of A at any position but the first and the last.
   */
  lemma AtPositionFaithful(p: Lora, i: int)
    requires WellFormed(p)
    ensures var la, lb := Lead(p.a.head), Lead(p.b.head);
      AtPosition(p, i).Some? <==> la != [] && EntryOk(Pos(i), lb[0]) && (la[0] != 1 || i == 0 || i == -1)
    ensures AtPosition(p, i).Some? ==>
              && WellFormed(AtPosition(p, i).value)
              && var es := [Pos(i)] + Fulls(|p.b.head| - 1);
                 EntriesOk(p.b.head, es) && SelectedShape(p.b.head, es) != [] && EntryOk(FULL, p.a.cols)
                 && Materialized(AtPosition(p, i).value) == Select(Materialized(p), es, FULL)
  {
    hide SelectedShape, Length, Select, Materialized, Selected, Agrees, AxisAgrees;
    var la, lb := Lead(p.a.head), Lead(p.b.head);
    if la != [] && EntryOk(Pos(i), la[0]) && EntryOk(Pos(i), lb[0]) {
      var es := [Pos(i)] + Fulls(|la| - 1);
      FirstAgrees(la, lb, Pos(i));
      SourceFull(Row(p.b.head), 0);
      SourceFull(p.a.cols, 0);
      PairSelected(p, es, es, FULL, FULL);
      assert es + [FULL] == [Pos(i)] + Fulls(|p.b.head| - 1);
      IsSelectable(p, es, es, FULL, FULL);
      SelectedWellFormed(p, es, es, FULL, FULL);
    }
  }

  lemma FirstAgrees(la: seq<nat>, lb: seq<nat>, e: Entry)
    requires Broadcasts(la, lb) && la != [] && EntryOk(e, la[0]) && EntryOk(e, lb[0])
    requires Fits(la[0], lb[0], e, e)
    ensures Agrees(la, lb, [e] + Fulls(|la| - 1), [e] + Fulls(|la| - 1))
    ensures EntriesOk(la, [e] + Fulls(|la| - 1)) && EntriesOk(lb, [e] + Fulls(|la| - 1))
  {
    hide AxisAgrees, Length, Fits;
    var es := [e] + Fulls(|la| - 1);
    forall i | 0 <= i < |la| ensures AxisAgrees(la[i], lb[i], es[i], es[i]) {
      if i > 0 {
        FullAgrees(la[i], lb[i]);
      } else if e.Pos? {
        PosAgrees(la[0], lb[0], e, e);
      } else {
        SliceAgrees(la[0], lb[0], e, e);
      }
    }
    AgreesOk(la, lb, es, es);
  }

  /** A slice keeps the pair well formed exactly when, on the first leading axis, what is left of A is of
      extent one or as long as what is left of B; and then it commutes with the product.
   */
  lemma SlicedFaithful(p: Lora, s: Entry)
    requires WellFormed(p) && IsSlice(s)
    ensures Sliced(p, s).Some?
    ensures var la, lb := Lead(p.a.head), Lead(p.b.head);
      WellFormed(Sliced(p, s).value) <==> (la != [] ==> Fits(la[0], lb[0], s, s))
    ensures WellFormed(Sliced(p, s).value) ==>
              var es := [s] + Fulls(|p.b.head| - 1);
              EntriesOk(p.b.head, es) && SelectedShape(p.b.head, es) != [] && EntryOk(FULL, p.a.cols)
              && Materialized(Sliced(p, s).value) == Select(Materialized(p), es, FULL)
  {
    hide SelectedShape, Length, Select, Materialized, Selected, Agrees, AxisAgrees, Fits;
    var la, lb := Lead(p.a.head), Lead(p.b.head);
    SourceFull(Row(p.b.head), 0);
    SourceFull(p.a.cols, 0);
    if la == [] {
      SlicedRows(p, s);
    } else {
      var es := [s] + Fulls(|la| - 1);
      FirstEntries(la, s);
      FirstEntries(lb, s);
      IsSelectable(p, es, es, FULL, FULL);
      SelectedWellFormed(p, es, es, FULL, FULL);
      SelectedBroadcasts(la, lb, es, es);
      CheckedPair(Selected(p, es, es, FULL, FULL), |SelectedShape(la, es)|, p.b.cols);
      FirstFits(la, lb, s);
      if Fits(la[0], lb[0], s, s) {
        FirstAgrees(la, lb, s);
        PairSelected(p, es, es, FULL, FULL);
        assert es + [FULL] == [s] + Fulls(|p.b.head| - 1);
      }
    }
  }

  lemma SlicedRows(p: Lora, s: Entry)
    requires WellFormed(p) && IsSlice(s) && |p.a.head| == 1
    ensures Sliced(p, s).Some? && WellFormed(Sliced(p, s).value)
    ensures EntriesOk(p.b.head, [s]) && SelectedShape(p.b.head, [s]) != [] && EntryOk(FULL, p.a.cols)
    ensures Materialized(Sliced(p, s).value) == Select(Materialized(p), [s] + Fulls(0), FULL)
  {
    hide SelectedShape, Length, Select, Materialized, Selected, Agrees, AxisAgrees, Fits;
    SourceFull(p.a.cols, 0);
    Untouched(p, s, FULL);
    assert Fulls(0) == [] && [] + [s] == [s] && [s] + Fulls(0) == [s];
    FullsAgree([], []);
    PairSelected(p, [], [], s, FULL);
  }

  lemma FirstEntries(shape: seq<nat>, s: Entry)
    requires shape != [] && IsSlice(s)
    ensures EntriesOk(shape, [s] + Fulls(|shape| - 1))
  {
  }

  lemma FirstFits(la: seq<nat>, lb: seq<nat>, s: Entry)
    requires Broadcasts(la, lb) && la != [] && IsSlice(s)
    requires EntriesOk(la, [s] + Fulls(|la| - 1)) && EntriesOk(lb, [s] + Fulls(|la| - 1))
    ensures AllFit(la, lb, [s] + Fulls(|la| - 1), [s] + Fulls(|la| - 1)) <==> Fits(la[0], lb[0], s, s)
  {
    hide Fits;
    var es := [s] + Fulls(|la| - 1);
    assert es[0] == s;
    forall i | 0 < i < |la| ensures Fits(la[i], lb[i], es[i], es[i]) {
      FullAgrees(la[i], lb[i]);
    }
  }

  /** Where slicing does not keep the pair, the factors have no product, or one that has not the shape of W's
      slice.
   */
  lemma SlicedProduct(p: Lora, s: Entry)
    requires WellFormed(p) && IsSlice(s)
    ensures Sliced(p, s).Some?
    ensures var q, lb, es := Sliced(p, s).value, Lead(p.b.head), [s] + Fulls(|p.b.head| - 1);
      && |q.a.head| == |q.b.head| > 0 && EntriesOk(p.b.head, es)
      && (ProductShape(q) == Some(SelectedShape(p.b.head, es) + [p.a.cols]) <==>
            lb != [] ==> Fits(p.a.head[0], p.b.head[0], s, s))
  {
    hide SelectedShape, Length, Select, Materialized, Selected, Agrees, AxisAgrees, Fits, ProductShape;
    SlicedFaithful(p, s);
    SlicedParts(p, s);
    ProductKept(Sliced(p, s).value);
  }

  lemma SlicedParts(p: Lora, s: Entry)
    requires WellFormed(p) && IsSlice(s) && Sliced(p, s).Some?
    ensures EntriesOk(p.b.head, [s] + Fulls(|p.b.head| - 1))
    ensures var q := Sliced(p, s).value;
      && q.a.Valid() && q.b.Valid() && |q.a.head| == |q.b.head| > 0 && q.b.cols == Row(q.a.head) == p.b.cols
      && q.b.head == SelectedShape(p.b.head, [s] + Fulls(|p.b.head| - 1)) && q.a.cols == p.a.cols
  {
    hide SelectedShape, Length, Select, Materialized;
    var la, lb, n := Lead(p.a.head), Lead(p.b.head), |p.b.head|;
    FirstEntries(p.b.head, s);
    SourceFull(Row(p.b.head), 0);
    SourceFull(p.a.cols, 0);
    if la == [] {
      assert Fulls(0) == [] && [s] + Fulls(0) == [s] && [] + [s] == [s];
      Untouched(p, s, FULL);
      IsSelectable(p, [], [], s, FULL);
    } else {
      var es := [s] + Fulls(|la| - 1);
      FirstEntries(la, s);
      FirstEntries(lb, s);
      IsSelectable(p, es, es, FULL, FULL);
      SelectedWellFormed(p, es, es, FULL, FULL);
      assert es + [FULL] == [s] + Fulls(n - 1);
    }
  }

  const EXAMPLE := Lora(Build([1, 1], 1, (h, j) => 0.0), Build([5, 1], 1, (h, j) => 0.0))

  /** The slice `2:5` along an axis that A broadcasts leaves factors without a product. */
  lemma CutBroadcastAxis(p: Lora)
    requires WellFormed(p) && |p.b.head| > 1 && p.a.head[0] == 1 && p.b.head[0] >= 5
    ensures WellFormed(EXAMPLE) && |EXAMPLE.b.head| > 1 && EXAMPLE.a.head[0] == 1 && EXAMPLE.b.head[0] >= 5
    ensures var s := Slice(Some(2), Some(5), 1);
      Sliced(p, s).Some? && |Sliced(p, s).value.a.head| == |Sliced(p, s).value.b.head| > 0
      && ProductShape(Sliced(p, s).value) == None && !WellFormed(Sliced(p, s).value)
  {
    hide SelectedShape, Select, Materialized;
    var s, la, lb := Slice(Some(2), Some(5), 1), Lead(p.a.head), Lead(p.b.head);
    var es := [s] + Fulls(|la| - 1);
    assert Lead(EXAMPLE.a.head) == [1] && Lead(EXAMPLE.b.head) == [5];
    SourceFull(Row(p.b.head), 0);
    SourceFull(p.a.cols, 0);
    FirstEntries(la, s);
    FirstEntries(lb, s);
    IsSelectable(p, es, es, FULL, FULL);
    SelectedWellFormed(p, es, es, FULL, FULL);
    SlicedFaithful(p, s);
    SlicedParts(p, s);
    FirstExtent(la, s);
    FirstExtent(lb, s);
    var q := Sliced(p, s).value;
    assert Lead(q.a.head)[0] == 0 && Lead(q.b.head)[0] == 3;
  }

  lemma FirstExtent(shape: seq<nat>, s: Entry)
    requires shape != [] && IsSlice(s)
    ensures EntriesOk(shape, [s] + Fulls(|shape| - 1))
    ensures SelectedShape(shape, [s] + Fulls(|shape| - 1)) != []
    ensures SelectedShape(shape, [s] + Fulls(|shape| - 1))[0] == Length(s, shape[0])
  {
    hide Length;
    FirstEntries(shape, s);
  }

  /** Dense indexing by a tuple whose row and column entries are slices. */
  function DensePicked(w: Tensor, es: seq<Entry>): Option<Tensor>
    requires w.Valid()
    requires forall i :: 0 <= i < |es| && |w.head| - 1 <= i ==> IsSlice(es[i])
  {
    var k := |w.head| - 1;
    if |es| > k + 2 then None
    else
      var all := Padded(es, k + 2);
      assert IsSlice(all[k]) && IsSlice(all[k + 1]) by { PaddedSlices(es, k + 2); }
      if !EntriesOk(Lead(w.head), all[..k]) then None
      else
        assert all[..k] + [all[k]] == all[..k + 1] && Lead(w.head) + [Row(w.head)] == w.head;
        SelectedAppend(Lead(w.head), all[..k], Row(w.head), all[k]);
        Some(Select(w, all[..k + 1], all[k + 1]))
  }

  /** No sliced leading axis cuts an axis of A that is not broadcast. */
  ghost predicate LeavesA(la: seq<nat>, lb: seq<nat>, es: seq<Entry>)
    requires |la| == |lb| && EntriesOk(lb, es)
  {
    forall i :: 0 <= i < |la| ==> Uncut(la[i], lb[i], es[i])
  }

  ghost predicate Uncut(a: nat, b: nat, e: Entry)
    requires EntryOk(e, b)
  {
    e.Slice? ==> a == 1 || Length(e, b) == b
  }

  /** Indexing by a tuple raises exactly when it does on W or the tuple is empty; it keeps the pair well formed
      exactly when no slice cuts a leading axis of A; and then it commutes with the product.
   */
  lemma PickedFaithful(p: Lora, es: seq<Entry>)
    requires WellFormed(p)
    requires forall i :: 0 <= i < |es| && |p.a.head| - 1 <= i ==> IsSlice(es[i])
    ensures Picked(p, es).Some? <==> es != [] && DensePicked(Materialized(p), es).Some?
    ensures Picked(p, es).Some? ==>
              var k := |p.a.head| - 1;
              EntriesOk(Lead(p.b.head), Padded(es, k + 2)[..k])
              && (WellFormed(Picked(p, es).value) <==> LeavesA(Lead(p.a.head), Lead(p.b.head), Padded(es, k + 2)[..k]))
    ensures Picked(p, es).Some? ==>
              var q := Picked(p, es).value;
              && |q.a.head| == |q.b.head| > 0 && DensePicked(Materialized(p), es).Some?
              && (WellFormed(q) <==> ProductShape(q) == Some(DensePicked(Materialized(p), es).value.Shape()))
    ensures Picked(p, es).Some? && WellFormed(Picked(p, es).value) ==>
              DensePicked(Materialized(p), es) == Some(Materialized(Picked(p, es).value))
  {
    hide SelectedShape, Length, Select, Materialized, Selected, Agrees, AxisAgrees, Fits, Padded, EntryOk, LeavesA;
    var la, lb, k := Lead(p.a.head), Lead(p.b.head), |p.a.head| - 1;
    if |es| <= k + 2 {
      var all := Padded(es, k + 2);
      var lead, row, last := all[..k], all[k], all[k + 1];
      PaddedSlices(es, k + 2);
      assert IsSlice(row) && IsSlice(last);
      if EntriesOk(lb, lead) {
        NoZero(la, lb, lead);
        PickedLead(p, lead, row, last);
        assert all[..k] + [all[k]] == all[..k + 1];
      }
    }
  }

  lemma NoZero(la: seq<nat>, lb: seq<nat>, es: seq<Entry>)
    requires Broadcasts(la, lb) && EntriesOk(lb, es)
    ensures forall i :: 0 <= i < |la| && es[i].Pos? ==> la[i] != 0
  {
  }

  lemma PickedLead(p: Lora, lead: seq<Entry>, row: Entry, last: Entry)
    requires WellFormed(p) && EntriesOk(Lead(p.b.head), lead) && IsSlice(row) && IsSlice(last)
    requires forall i :: 0 <= i < |lead| && lead[i].Pos? ==> p.a.head[i] != 0
    ensures EntriesOk(Lead(p.a.head), EntriesA(Lead(p.a.head), lead))
    ensures Selectable(p, EntriesA(Lead(p.a.head), lead), lead, row, last)
    ensures var q := Selected(p, EntriesA(Lead(p.a.head), lead), lead, row, last);
      && Checked(q.a, q.b) == Some(q)
      && (WellFormed(q) <==> LeavesA(Lead(p.a.head), Lead(p.b.head), lead))
      && EntriesOk(p.b.head, lead + [row]) && q.b.head == SelectedShape(p.b.head, lead + [row]) && q.a.cols == Length(last, p.a.cols)
      && |q.a.head| == |q.b.head| > 0 && (WellFormed(q) <==> ProductShape(q) == Some(q.b.head + [q.a.cols]))
      && (WellFormed(q) ==> Materialized(q) == Select(Materialized(p), lead + [row], last))
  {
    hide SelectedShape, Length, Select, Materialized, Selected, Agrees, AxisAgrees, Fits, LeavesA;
    var la, lb := Lead(p.a.head), Lead(p.b.head);
    EntriesAOk(la, lb, lead);
    var ea := EntriesA(la, lead);
    IsSelectable(p, ea, lead, row, last);
    SelectedWellFormed(p, ea, lead, row, last);
    SelectedBroadcasts(la, lb, ea, lead);
    CheckedPair(Selected(p, ea, lead, row, last), |SelectedShape(la, ea)|, p.b.cols);
    LeadsFit(la, lb, lead);
    var q := Selected(p, ea, lead, row, last);
    assert q.a.Valid() && q.b.Valid();
    assert |q.a.head| == |q.b.head|;
    ProductKept(q);
    if LeavesA(la, lb, lead) {
      LeadsAgree(la, lb, lead);
      PairSelected(p, ea, lead, row, last);
    }
  }

  lemma LeadsFit(la: seq<nat>, lb: seq<nat>, es: seq<Entry>)
    requires Broadcasts(la, lb) && EntriesOk(lb, es)
    requires forall i :: 0 <= i < |es| && es[i].Pos? ==> la[i] != 0
    requires EntriesOk(la, EntriesA(la, es))
    ensures AllFit(la, lb, EntriesA(la, es), es) <==> LeavesA(la, lb, es)
  {
    hide Fits, Uncut;
    forall i | 0 <= i < |la| ensures Fits(la[i], lb[i], EntriesA(la, es)[i], es[i]) <==> Uncut(la[i], lb[i], es[i]) {
      LeadFits(la[i], lb[i], es[i]);
    }
  }

  lemma LeadFits(a: nat, b: nat, e: Entry)
    requires (a == 1 || a == b) && EntryOk(e, b) && (e.Pos? ==> a > 0)
    ensures EntryOk(EntryA(e, a), a) && (Fits(a, b, EntryA(e, a), e) <==> Uncut(a, b, e))
  {
    hide Length;
    SourceFull(a, 0);
    if e.Slice? && a == b {
      LengthWithin(e, b);
    }
  }

  lemma LeadsAgree(la: seq<nat>, lb: seq<nat>, es: seq<Entry>)
    requires Broadcasts(la, lb) && EntriesOk(lb, es)
    requires forall i :: 0 <= i < |es| && es[i].Pos? ==> la[i] != 0
    requires EntriesOk(la, EntriesA(la, es)) && LeavesA(la, lb, es)
    ensures Agrees(la, lb, EntriesA(la, es), es)
  {
    hide Fits, Uncut, AxisAgrees;
    forall i | 0 <= i < |la| ensures AxisAgrees(la[i], lb[i], EntriesA(la, es)[i], es[i]) {
      LeadFits(la[i], lb[i], es[i]);
      if es[i].Pos? {
        PosAgrees(la[i], lb[i], EntryA(es[i], la[i]), es[i]);
      } else {
        SliceAgrees(la[i], lb[i], FULL, es[i]);
      }
    }
  }

  lemma LengthWithin(e: Entry, n: nat)
    requires EntryOk(e, n) && e.Slice?
    ensures Length(e, n) <= n
  {
    var end := if e.hi.None? then n else Clamped(e.hi.value, n);
    if First(e, n) < end {
      DivWithin(end - First(e, n) - 1, e.step);
    }
  }

  lemma DivWithin(d: nat, step: nat)
    requires step > 0
    ensures d / step <= d
  {
    assert d / step * step <= d;
    MulGrows(d / step, step);
  }

  lemma {:induction false} MulGrows(q: nat, step: nat)
    requires step > 0
    ensures q <= q * step
  {
    if step > 1 {
      MulGrows(q, step - 1);
      assert q * step == q * (step - 1) + q;
    }
  }
}
