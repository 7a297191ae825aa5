/** Splitting a factored weight into consecutive chunks along an axis. */
module LoraSplit {
  import opened LoraIndexing
  import opened LoraTensor
  import opened Tensors
  import opened Wrappers

  // ---------- chunks of an axis ----------

  /** A chunk size for all, or the size of each chunk. */
  datatype Sizes = Each(size: int) | Listed(sizes: seq<int>)

  function Sum(cuts: seq<nat>): nat {
    if cuts == [] then 0 else cuts[0] + Sum(cuts[1..])
  }

  function Chunked(size: nat, n: nat): (r: seq<nat>)
    requires size > 0
    ensures Sum(r) == n
    decreases n
  {
    if n <= size then [n] else [size] + Chunked(size, n - size)
  }

  function Naturals(s: seq<int>): seq<nat>
    requires forall i :: 0 <= i < |s| ==> s[i] >= 0
  {
    seq(|s|, i requires 0 <= i < |s| => s[i] as nat)
  }

  /** The lengths of the chunks of an axis of extent `n`. */
  function Cuts(s: Sizes, n: nat): (r: Option<seq<nat>>)
    ensures r.Some? ==> Sum(r.value) == n
  {
    match s
    case Each(size) =>
      if size < 0 || (size == 0 && n > 0) then None
      else if n == 0 then Some([0])
      else Some(Chunked(size, n))
    case Listed(sizes) =>
      if exists i :: 0 <= i < |sizes| && sizes[i] < 0 then None
      else if Sum(Naturals(sizes)) != n then None
      else Some(Naturals(sizes))
  }

  /** The slice for chunk `i`. */
  function Chunk(cuts: seq<nat>, i: nat): (e: Entry)
    requires i < |cuts|
    ensures IsSlice(e)
  {
    Slice(Some(Sum(cuts[..i])), Some(Sum(cuts[..i]) + cuts[i]), 1)
  }

  lemma {:induction false} SumAppend(a: seq<nat>, b: seq<nat>)
    ensures Sum(a + b) == Sum(a) + Sum(b)
  {
    if a == [] {
      assert a + b == b;
    } else {
      assert (a + b)[1..] == a[1..] + b;
      SumAppend(a[1..], b);
    }
  }

  lemma SumTo(cuts: seq<nat>, i: nat)
    requires i < |cuts|
    ensures Sum(cuts[..i + 1]) == Sum(cuts[..i]) + cuts[i] <= Sum(cuts)
  {
    assert cuts[..i + 1] == cuts[..i] + [cuts[i]] && cuts == cuts[..i + 1] + cuts[i + 1..];
    SumAppend(cuts[..i], [cuts[i]]);
    SumAppend(cuts[..i + 1], cuts[i + 1..]);
    assert [cuts[i]][1..] == [];
  }

  /** The chunks have the lengths asked for and lie one after the other. */
  lemma ChunkCovers(cuts: seq<nat>, i: nat, x: nat)
    requires i < |cuts|
    ensures Length(Chunk(cuts, i), Sum(cuts)) == cuts[i]
    ensures Source(Chunk(cuts, i), Sum(cuts), x) == Sum(cuts[..i]) + x
  {
    SumTo(cuts, i);
  }

  /** Every position lies in a chunk, and by the next lemma in no other. */
  lemma ChunkOf(cuts: seq<nat>, pos: nat) returns (i: nat, x: nat)
    requires pos < Sum(cuts)
    ensures i < |cuts| && x < cuts[i] && Source(Chunk(cuts, i), Sum(cuts), x) == pos
  {
    i := 0;
    assert cuts[..|cuts|] == cuts;
    while i < |cuts| && pos >= Sum(cuts[..i + 1])
      invariant i <= |cuts| && Sum(cuts[..i]) <= pos
    {
      i := i + 1;
    }
    SumTo(cuts, i);
    x := pos - Sum(cuts[..i]);
    ChunkCovers(cuts, i, x);
  }

  lemma ChunkUnique(cuts: seq<nat>, i: nat, x: nat, k: nat, y: nat)
    requires i < |cuts| && x < cuts[i] && k < |cuts| && y < cuts[k]
    requires Source(Chunk(cuts, i), Sum(cuts), x) == Source(Chunk(cuts, k), Sum(cuts), y)
    ensures i == k && x == y
  {
    ChunkCovers(cuts, i, x);
    ChunkCovers(cuts, k, y);
    if k < i {
      SumTo(cuts, k);
      SumMonotone(cuts, k + 1, i);
    } else if i < k {
      SumTo(cuts, i);
      SumMonotone(cuts, i + 1, k);
    }
  }

  lemma SumMonotone(cuts: seq<nat>, i: nat, j: nat)
    requires i <= j <= |cuts|
    ensures Sum(cuts[..i]) <= Sum(cuts[..j])
  {
    assert cuts[..j] == cuts[..i] + cuts[i..j];
    SumAppend(cuts[..i], cuts[i..j]);
  }

  // ---------- chunks of a tensor ----------

  lemma {:induction false} SlicesKeepRank(shape: seq<nat>, es: seq<Entry>)
    requires EntriesOk(shape, es) && forall i :: 0 <= i < |es| ==> es[i].Slice?
    ensures |SelectedShape(shape, es)| == |shape|
    decreases shape
  {
    hide Length;
    if shape != [] {
      SlicesKeepRank(shape[1..], es[1..]);
    }
  }

  /** The chunk of a tensor along axis `d`, the last axis being the one after `head`. */
  function Narrow(t: Tensor, d: nat, c: Entry): (r: Tensor)
    requires t.Valid() && d <= |t.head| && IsSlice(c)
    ensures r.Valid() && |r.head| == |t.head|
  {
    FullSelection(t.head);
    SourceFull(t.cols, 0);
    if d == |t.head| then Select(t, Fulls(d), c)
    else
      SlicesKeepRank(t.head, Fulls(|t.head|)[d := c]);
      Select(t, Fulls(|t.head|)[d := c], FULL)
  }

  function Extent(t: Tensor, d: nat): nat
    requires d <= |t.head|
  {
    if d == |t.head| then t.cols else t.head[d]
  }

  /** `split` of a dense tensor. */
  function DenseSplit(t: Tensor, s: Sizes, d: nat): Option<seq<Tensor>>
    requires t.Valid() && d <= |t.head|
  {
    var cuts := Cuts(s, Extent(t, d));
    if cuts.None? then None
    else Some(seq(|cuts.value|, i requires 0 <= i < |cuts.value| => Narrow(t, d, Chunk(cuts.value, i))))
  }

  /** One chunk of the pair. */
  function PairChunk(p: Lora, d: nat, c: Entry): Option<Lora>
    requires WellFormed(p) && d <= |p.b.head| && IsSlice(c)
  {
    if d == |p.b.head| then Checked(Narrow(p.a, d, c), p.b)
    else if d == |p.b.head| - 1 || p.a.head[d] == 1 then Checked(p.a, Narrow(p.b, d, c))
    else Checked(Narrow(p.a, d, c), Narrow(p.b, d, c))
  }

  /** `self.split(sizes, dim)`; a dimension may be counted from the end. */
  function Split(p: Lora, s: Sizes, dim: int): Option<seq<Lora>>
    requires WellFormed(p) && -(|p.b.head| + 1) <= dim
  {
    var d := if dim < 0 then dim + |p.b.head| + 1 else dim;
    if d > |p.b.head| then None
    else
      var cuts := Cuts(s, if d == |p.b.head| then p.a.cols else p.b.head[d]);
      if cuts.None? || exists i :: 0 <= i < |cuts.value| && PairChunk(p, d, Chunk(cuts.value, i)).None? then None
      else Some(seq(|cuts.value|, i requires 0 <= i < |cuts.value| => PairChunk(p, d, Chunk(cuts.value, i)).value))
  }

  /** A chunk of the pair materialises to the chunk of W. */
  lemma PairChunkFaithful(p: Lora, d: nat, c: Entry)
    requires WellFormed(p) && d <= |p.b.head| && IsSlice(c)
    ensures PairChunk(p, d, c).Some? && WellFormed(PairChunk(p, d, c).value)
    ensures Materialized(PairChunk(p, d, c).value) == Narrow(Materialized(p), d, c)
  {
    hide SelectedShape, Length, Select, Materialized, Agrees, AxisAgrees;
    var k := |p.a.head| - 1;
    FullsAgree(Lead(p.a.head), Lead(p.b.head));
    SourceFull(p.a.cols, 0);
    SourceFull(Row(p.b.head), 0);
    if d == |p.b.head| {
      Untouched(p, FULL, c);
      PairSelected(p, Fulls(k), Fulls(k), FULL, c);
      assert Fulls(k) + [FULL] == Fulls(k + 1);
    } else if d == k {
      Untouched(p, c, FULL);
      PairSelected(p, Fulls(k), Fulls(k), c, FULL);
      assert Fulls(k) + [c] == Fulls(k + 1)[d := c];
    } else {
      LeadChunk(p, d, c);
    }
  }

  lemma LeadChunk(p: Lora, d: nat, c: Entry)
    requires WellFormed(p) && d < |p.b.head| - 1 && IsSlice(c)
    ensures PairChunk(p, d, c).Some? && WellFormed(PairChunk(p, d, c).value)
    ensures Materialized(PairChunk(p, d, c).value) == Narrow(Materialized(p), d, c)
  {
    hide SelectedShape, Length, Select, Materialized, Agrees, AxisAgrees;
    var k := |p.a.head| - 1;
    var fulls := Fulls(k);
    var ea := if p.a.head[d] == 1 then fulls else fulls[d := c];
    SourceFull(p.a.cols, 0);
    SourceFull(Row(p.b.head), 0);
    ChunkAgrees(Lead(p.a.head), Lead(p.b.head), d, c);
    PairSelected(p, ea, fulls[d := c], FULL, FULL);
    assert fulls[d := c] + [FULL] == Fulls(k + 1)[d := c] && fulls + [FULL] == Fulls(k + 1);
    SelectAll(p.a);
  }

  lemma ChunkAgrees(la: seq<nat>, lb: seq<nat>, d: nat, c: Entry)
    requires Broadcasts(la, lb) && d < |la| && IsSlice(c)
    ensures Agrees(la, lb, if la[d] == 1 then Fulls(|la|) else Fulls(|la|)[d := c], Fulls(|la|)[d := c])
  {
    hide AxisAgrees, Length;
    var ea, eb := if la[d] == 1 then Fulls(|la|) else Fulls(|la|)[d := c], Fulls(|la|)[d := c];
    forall i | 0 <= i < |la| ensures AxisAgrees(la[i], lb[i], ea[i], eb[i]) {
      if i == d {
        SourceFull(1, 0);
        SliceAgrees(la[i], lb[i], ea[i], c);
      } else {
        FullAgrees(la[i], lb[i]);
      }
    }
  }

  /** Splitting raises exactly when it does on W, and chunk by chunk commutes with the product. */
  lemma SplitFaithful(p: Lora, s: Sizes, dim: int)
    requires WellFormed(p) && -(|p.b.head| + 1) <= dim <= |p.b.head|
    ensures var d := if dim < 0 then dim + |p.b.head| + 1 else dim; var w := DenseSplit(Materialized(p), s, d);
      && (Split(p, s, dim).Some? <==> w.Some?)
      && (w.Some? ==>
            && |Split(p, s, dim).value| == |w.value|
            && forall i :: 0 <= i < |w.value| ==>
                 WellFormed(Split(p, s, dim).value[i]) && Materialized(Split(p, s, dim).value[i]) == w.value[i])
  {
    hide Narrow, Materialized, PairChunk, WellFormed;
    var d := if dim < 0 then dim + |p.b.head| + 1 else dim;
    var cuts := Cuts(s, Extent(Materialized(p), d));
    if cuts.Some? {
      forall i | 0 <= i < |cuts.value|
        ensures PairChunk(p, d, Chunk(cuts.value, i)).Some? && WellFormed(PairChunk(p, d, Chunk(cuts.value, i)).value)
        ensures Materialized(PairChunk(p, d, Chunk(cuts.value, i)).value) == Narrow(Materialized(p), d, Chunk(cuts.value, i))
      {
        PairChunkFaithful(p, d, Chunk(cuts.value, i));
      }
    }
  }
}
