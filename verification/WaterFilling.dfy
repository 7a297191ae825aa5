/** Shares of a model proportional to measured speed, limited by what each device can hold.

    Doubles are modelled as reals, so rounding is not part of this model.
 */
module WaterFilling {

  /** Devices with a speed score and a capacity in bytes, and the bytes to be placed. */
  datatype Fleet = Fleet(score: seq<real>, cap: seq<real>, bytes: real) {
    ghost predicate Valid() {
      && |score| == |cap| && bytes > 0.0
      && (forall i :: 0 <= i < |score| ==> score[i] >= 0.0)
      && (forall i :: 0 <= i < |cap| ==> cap[i] >= 0.0)
    }
  }

  /** Which share each device has, and which devices are fixed at their capacity. */
  datatype Fill = Fill(share: seq<real>, capped: seq<bool>)

  ghost predicate Fits(f: Fill, d: Fleet) {
    |f.share| == |f.capped| == |d.score| == |d.cap|
  }

  /** The sum of the first `n` values whose mark is `mark`. */
  function SumWhere(xs: seq<real>, marks: seq<bool>, mark: bool, n: nat): real
    requires n <= |xs| && n <= |marks|
  {
    if n == 0 then 0.0
    else SumWhere(xs, marks, mark, n - 1) + (if marks[n - 1] == mark then xs[n - 1] else 0.0)
  }

  function Sum(xs: seq<real>, n: nat): real
    requires n <= |xs|
  {
    if n == 0 then 0.0 else Sum(xs, n - 1) + xs[n - 1]
  }

  function Count(marks: seq<bool>, n: nat): (c: nat)
    requires n <= |marks|
    ensures c <= n
  {
    if n == 0 then 0 else Count(marks, n - 1) + (if marks[n - 1] then 1 else 0)
  }

  function FreeShare(f: Fill): real
    requires |f.share| == |f.capped|
  {
    1.0 - SumWhere(f.share, f.capped, true, |f.share|)
  }

  function ScoreLeft(f: Fill, d: Fleet): real
    requires |f.share| == |f.capped| == |d.score|
  {
    SumWhere(d.score, f.capped, false, |d.score|)
  }

  /** One device in a pass that offers it the share `offer`. */
  function Poured(share: real, capped: bool, offer: real, cap: real, bytes: real): (real, bool)
    requires bytes > 0.0
  {
    if capped then (share, true)
    else if offer * bytes > cap then (cap / bytes, true)
    else (offer, false)
  }

  function Offer(level: real, score: real): real {
    level * score
  }

  /** What device `i` has after a pass over `f` at `level` share per unit of score. */
  function PouredAt(f: Fill, d: Fleet, level: real, i: nat): (real, bool)
    requires |f.share| == |f.capped| == |d.score| == |d.cap| && d.bytes > 0.0 && i < |d.score|
  {
    Poured(f.share[i], f.capped[i], Offer(level, d.score[i]), d.cap[i], d.bytes)
  }

  function Pass(f: Fill, d: Fleet): (r: Fill)
    requires |f.share| == |f.capped| == |d.score| == |d.cap| && d.bytes > 0.0 && ScoreLeft(f, d) > 0.0
    ensures |r.share| == |r.capped| == |d.score|
    ensures forall i :: 0 <= i < |d.score| ==> (r.share[i], r.capped[i]) == PouredAt(f, d, FreeShare(f) / ScoreLeft(f, d), i)
  {
    var level := FreeShare(f) / ScoreLeft(f, d);
    Fill(seq(|d.score|, i requires 0 <= i < |d.score| => PouredAt(f, d, level, i).0),
         seq(|d.score|, i requires 0 <= i < |d.score| => PouredAt(f, d, level, i).1))
  }

  /** At most `passes` passes, stopping when no score is left or nothing new was capped. */
  function Passes(f: Fill, d: Fleet, passes: nat): (r: Fill)
    requires |f.share| == |f.capped| == |d.score| == |d.cap| && d.bytes > 0.0
    ensures |r.share| == |r.capped| == |d.score|
    decreases passes
  {
    if passes == 0 || ScoreLeft(f, d) <= 0.0 then f
    else
      var g := Pass(f, d);
      if g.capped == f.capped then g else Passes(g, d, passes - 1)
  }

  function Empty(n: nat): (f: Fill)
    ensures |f.share| == |f.capped| == n
  {
    Fill(seq(n, _ => 0.0), seq(n, _ => false))
  }

  function Filled(d: Fleet): (r: Fill)
    requires |d.score| == |d.cap| && d.bytes > 0.0
    ensures |r.share| == |r.capped| == |d.score|
  {
    Passes(Empty(|d.score|), d, |d.score|)
  }

  // ---------- the nested loops ----------

  lemma ShareByLevel(free: real, score: real, total: real)
    requires total > 0.0
    ensures free * score / total == free / total * score
  {
  }

  lemma PouredOffer(f: Fill, d: Fleet, level: real, i: nat, offer: real)
    requires |f.share| == |f.capped| == |d.score| == |d.cap| && d.bytes > 0.0 && i < |d.score|
    requires !f.capped[i] && offer == Offer(level, d.score[i])
    ensures PouredAt(f, d, level, i) == if offer * d.bytes > d.cap[i] then (d.cap[i] / d.bytes, true) else (offer, false)
  {
    hide Offer;
  }

  method RunPass(share: array<real>, capped: array<bool>, d: Fleet, free: real, left: real) returns (newlyCapped: bool)
    requires share.Length == capped.Length == |d.score| == |d.cap| && d.bytes > 0.0
    requires var f := Fill(share[..], capped[..]); left == ScoreLeft(f, d) > 0.0 && free == FreeShare(f)
    modifies share, capped
    ensures Fill(share[..], capped[..]) == Pass(old(Fill(share[..], capped[..])), d)
    ensures newlyCapped <==> capped[..] != old(capped[..])
  {
    hide ScoreLeft, FreeShare;
    newlyCapped := false;
    ghost var f := Fill(share[..], capped[..]);
    ghost var level := free / left;
    for i := 0 to share.Length
      invariant forall j :: i <= j < share.Length ==> share[j] == f.share[j] && capped[j] == f.capped[j]
      invariant forall j :: 0 <= j < i ==> (share[j], capped[j]) == PouredAt(f, d, level, j)
      invariant newlyCapped <==> capped[..i] != f.capped[..i]
    {
      ghost var before := capped[..i];
      if !capped[i] {
        ShareByLevel(free, d.score[i], left);
        var offer := free * d.score[i] / left;
        PouredOffer(f, d, level, i, offer);
        share[i] := offer;
        if share[i] * d.bytes > d.cap[i] {
          share[i] := d.cap[i] / d.bytes;
          capped[i] := true;
          newlyCapped := true;
        }
      }
      assert (share[i], capped[i]) == PouredAt(f, d, level, i);
      assert capped[..i] == before && capped[..i + 1] == before + [capped[i]];
      assert f.capped[..i + 1] == f.capped[..i] + [f.capped[i]];
    }
    assert capped[..] == capped[..share.Length] && f.capped == f.capped[..share.Length];
    SameFill(Fill(share[..], capped[..]), f, d);
  }

  lemma SameFill(g: Fill, f: Fill, d: Fleet)
    requires |f.share| == |f.capped| == |d.score| == |d.cap| && d.bytes > 0.0 && ScoreLeft(f, d) > 0.0
    requires |g.share| == |g.capped| == |d.score|
    requires forall i :: 0 <= i < |d.score| ==> (g.share[i], g.capped[i]) == PouredAt(f, d, FreeShare(f) / ScoreLeft(f, d), i)
    ensures g == Pass(f, d)
  {
    hide ScoreLeft, FreeShare, PouredAt;
    var p := Pass(f, d);
    forall i | 0 <= i < |d.score| ensures g.share[i] == p.share[i] && g.capped[i] == p.capped[i] {
      assert (g.share[i], g.capped[i]) == PouredAt(f, d, FreeShare(f) / ScoreLeft(f, d), i) == (p.share[i], p.capped[i]);
    }
    assert g.share == p.share && g.capped == p.capped;
  }

  method Measure(share: array<real>, capped: array<bool>, d: Fleet) returns (free: real, left: real)
    requires share.Length == capped.Length == |d.score|
    ensures var f := Fill(share[..], capped[..]); free == FreeShare(f) && left == ScoreLeft(f, d)
  {
    free, left := 1.0, 0.0;
    for i := 0 to share.Length
      invariant free == 1.0 - SumWhere(share[..], capped[..], true, i)
      invariant left == SumWhere(d.score, capped[..], false, i)
    {
      if capped[i] {
        free := free - share[i];
      } else {
        left := left + d.score[i];
      }
    }
  }

  method WaterFill(d: Fleet) returns (share: array<real>, capped: array<bool>)
    requires |d.score| == |d.cap| && d.bytes > 0.0
    ensures fresh(share) && fresh(capped) && share.Length == capped.Length == |d.score|
    ensures Fill(share[..], capped[..]) == Filled(d)
  {
    hide Pass, FreeShare, ScoreLeft;
    var n := |d.score|;
    share := new real[n](_ => 0.0);
    capped := new bool[n](_ => false);
    assert Fill(share[..], capped[..]) == Empty(n);
    for pass := 0 to n
      invariant fresh(share) && fresh(capped)
      invariant Passes(Fill(share[..], capped[..]), d, n - pass) == Filled(d)
    {
      var free, left := Measure(share, capped, d);
      if left <= 0.0 {
        return;
      }
      var newlyCapped := RunPass(share, capped, d, free, left);
      if !newlyCapped {
        return;
      }
    }
  }

  // ---------- fairness ----------

  function Min(a: real, b: real): real {
    if a <= b then a else b
  }

  /** Every device has the share its score earns at `level`, or its whole capacity if that is less. */
  ghost predicate FairAt(share: seq<real>, d: Fleet, level: real)
    requires d.Valid()
  {
    && |share| == |d.score| && level >= 0.0
    && forall i :: 0 <= i < |share| ==> share[i] == Min(d.cap[i] / d.bytes, level * d.score[i])
  }

  /** What holds between passes, at the level last offered. */
  ghost predicate FillAt(f: Fill, d: Fleet, level: real)
    requires d.Valid()
  {
    && Fits(f, d) && FairAt(f.share, d, level)
    && (forall i :: 0 <= i < |f.share| ==> !f.capped[i] ==> f.share[i] == level * d.score[i])
    && (forall i :: 0 <= i < |f.share| ==> f.capped[i] ==> f.share[i] == d.cap[i] / d.bytes && d.score[i] > 0.0)
    && Sum(f.share, |f.share|) <= 1.0
  }

  lemma {:induction false} SumSplits(xs: seq<real>, marks: seq<bool>, n: nat)
    requires n <= |xs| == |marks|
    ensures Sum(xs, n) == SumWhere(xs, marks, true, n) + SumWhere(xs, marks, false, n)
  {
    if n > 0 {
      SumSplits(xs, marks, n - 1);
    }
  }

  lemma Distribute(level: real, a: real, b: real)
    ensures level * (a + b) == level * a + level * b
    ensures level * 0.0 == 0.0
  {
  }

  lemma {:induction false} SumScales(xs: seq<real>, ys: seq<real>, marks: seq<bool>, level: real, n: nat)
    requires n <= |xs| == |ys| == |marks|
    requires forall i :: 0 <= i < n ==> !marks[i] ==> xs[i] == level * ys[i]
    ensures SumWhere(xs, marks, false, n) == level * SumWhere(ys, marks, false, n)
  {
    if n == 0 {
      Distribute(level, 0.0, 0.0);
    } else {
      SumScales(xs, ys, marks, level, n - 1);
      Distribute(level, SumWhere(ys, marks, false, n - 1), ys[n - 1]);
    }
  }

  lemma DivideBelow(a: real, b: real, c: real)
    requires b > 0.0
    ensures c * b <= a <==> c <= a / b
    ensures a < c * b <==> a / b < c
    ensures a / b * b == a
  {
  }

  /** The level offered never falls: what is free covers the remaining scores at the old level. */
  lemma LevelRises(f: Fill, d: Fleet, level: real)
    requires d.Valid() && FillAt(f, d, level) && ScoreLeft(f, d) > 0.0
    ensures level <= FreeShare(f) / ScoreLeft(f, d)
  {
    var n := |f.share|;
    SumSplits(f.share, f.capped, n);
    SumScales(f.share, d.score, f.capped, level, n);
    DivideBelow(FreeShare(f), ScoreLeft(f, d), level);
  }

  lemma PouredShare(share: real, capped: bool, offer: real, cap: real, bytes: real)
    requires bytes > 0.0
    ensures var (s, c) := Poured(share, capped, offer, cap, bytes);
            && (capped ==> s == share && c)
            && (!capped ==> s == Min(cap / bytes, offer) && (c <==> cap / bytes < offer))
  {
    DivideBelow(cap, bytes, offer);
  }

  /** What a pass at `level` offers to the first `n` devices, fixed shares included. */
  function Offered(f: Fill, d: Fleet, level: real, n: nat): real
    requires n <= |f.share| == |f.capped| == |d.score|
  {
    if n == 0 then 0.0
    else Offered(f, d, level, n - 1) + (if f.capped[n - 1] then f.share[n - 1] else level * d.score[n - 1])
  }

  lemma {:induction false} OfferedTotal(f: Fill, d: Fleet, level: real, n: nat)
    requires n <= |f.share| == |f.capped| == |d.score|
    ensures Offered(f, d, level, n) == SumWhere(f.share, f.capped, true, n) + level * SumWhere(d.score, f.capped, false, n)
  {
    if n == 0 {
      Distribute(level, 0.0, 0.0);
    } else {
      OfferedTotal(f, d, level, n - 1);
      Distribute(level, SumWhere(d.score, f.capped, false, n - 1), d.score[n - 1]);
      Distribute(level, SumWhere(d.score, f.capped, false, n - 1), 0.0);
    }
  }

  /** One device gets at most what it is offered, and all of it if it is not newly capped. */
  lemma PouredAtMost(f: Fill, d: Fleet, level: real, k: nat)
    requires d.Valid() && Fits(f, d) && k < |d.score|
    ensures var offered := if f.capped[k] then f.share[k] else level * d.score[k];
      PouredAt(f, d, level, k).0 <= offered && (PouredAt(f, d, level, k).1 == f.capped[k] ==> PouredAt(f, d, level, k).0 == offered)
  {
    hide Poured;
    PouredShare(f.share[k], f.capped[k], Offer(level, d.score[k]), d.cap[k], d.bytes);
  }

  /** A pass hands out at most what it offers, and all of it if no device is newly capped. */
  lemma {:induction false} PassSum(f: Fill, g: Fill, d: Fleet, level: real, n: nat)
    requires d.Valid() && Fits(f, d) && Fits(g, d) && n <= |d.score|
    requires forall i :: 0 <= i < n ==> (g.share[i], g.capped[i]) == PouredAt(f, d, level, i)
    ensures Sum(g.share, n) <= Offered(f, d, level, n)
    ensures g.capped == f.capped ==> Sum(g.share, n) == Offered(f, d, level, n)
  {
    hide PouredAt;
    if n > 0 {
      var k := n - 1;
      PassSum(f, g, d, level, k);
      assert (g.share[k], g.capped[k]) == PouredAt(f, d, level, k);
      PouredAtMost(f, d, level, k);
    }
  }

  lemma {:induction false} PassCount(f: seq<bool>, g: seq<bool>, n: nat)
    requires n <= |f| == |g| && forall i :: 0 <= i < n ==> f[i] ==> g[i]
    ensures Count(f, n) <= Count(g, n)
    ensures f[..n] != g[..n] ==> Count(f, n) < Count(g, n)
  {
    if n > 0 {
      PassCount(f, g, n - 1);
      assert f[..n] == f[..n - 1] + [f[n - 1]] && g[..n] == g[..n - 1] + [g[n - 1]];
    }
  }

  lemma LevelBelow(low: real, high: real, score: real)
    requires 0.0 <= low <= high && score >= 0.0
    ensures 0.0 <= low * score <= high * score
  {
  }

  lemma PassKeeps(f: Fill, d: Fleet, level: real)
    requires d.Valid() && FillAt(f, d, level) && ScoreLeft(f, d) > 0.0
    ensures var g, up := Pass(f, d), FreeShare(f) / ScoreLeft(f, d);
            && level <= up && FillAt(g, d, up)
            && (g.capped == f.capped ==> Sum(g.share, |g.share|) == 1.0)
            && (g.capped != f.capped ==> Count(f.capped, |d.score|) < Count(g.capped, |d.score|))
  {
    hide Pass, ScoreLeft, FreeShare, Count, Sum;
    var g, up, n := Pass(f, d), FreeShare(f) / ScoreLeft(f, d), |d.score|;
    LevelRises(f, d, level);
    PassSum(f, g, d, up, n);
    FreeIsOffered(f, d);
    PassIsFair(f, g, d, level, up);
    PassCount(f.capped, g.capped, n);
    assert f.capped[..n] == f.capped && g.capped[..n] == g.capped;
  }

  /** Raising the level keeps capped devices rightly capped. */
  lemma PassIsFair(f: Fill, g: Fill, d: Fleet, level: real, up: real)
    requires d.Valid() && FillAt(f, d, level) && level <= up && Fits(g, d)
    requires forall i :: 0 <= i < |d.score| ==> (g.share[i], g.capped[i]) == PouredAt(f, d, up, i)
    ensures FairAt(g.share, d, up)
    ensures forall i :: 0 <= i < |d.score| ==>
              && (f.capped[i] ==> g.capped[i])
              && (!g.capped[i] ==> g.share[i] == up * d.score[i])
              && (g.capped[i] ==> g.share[i] == d.cap[i] / d.bytes && d.score[i] > 0.0)
  {
    forall i | 0 <= i < |d.score|
      ensures g.share[i] == Min(d.cap[i] / d.bytes, up * d.score[i])
      ensures !g.capped[i] ==> g.share[i] == up * d.score[i]
      ensures g.capped[i] ==> g.share[i] == d.cap[i] / d.bytes && d.score[i] > 0.0
      ensures f.capped[i] ==> g.capped[i]
    {
      assert (g.share[i], g.capped[i]) == PouredAt(f, d, up, i);
      PouredShare(f.share[i], f.capped[i], up * d.score[i], d.cap[i], d.bytes);
      LevelBelow(level, up, d.score[i]);
      NonNegativeQuotient(d.cap[i], d.bytes);
    }
  }

  lemma NonNegativeQuotient(a: real, b: real)
    requires a >= 0.0 && b > 0.0
    ensures a / b >= 0.0
  {
  }

  lemma FreeIsOffered(f: Fill, d: Fleet)
    requires d.Valid() && Fits(f, d) && ScoreLeft(f, d) > 0.0
    ensures Offered(f, d, FreeShare(f) / ScoreLeft(f, d), |d.score|) == 1.0
  {
    OfferedTotal(f, d, FreeShare(f) / ScoreLeft(f, d), |d.score|);
    DivideBelow(FreeShare(f), ScoreLeft(f, d), 0.0);
  }

  lemma {:induction false} AllCapped(f: Fill, d: Fleet, n: nat)
    requires d.Valid() && Fits(f, d) && n <= |d.score| && Count(f.capped, n) >= n
    ensures SumWhere(d.score, f.capped, false, n) == 0.0
  {
    if n > 0 {
      AllCapped(f, d, n - 1);
    }
  }

  lemma {:induction false} ScoresNonNegative(f: Fill, d: Fleet, n: nat)
    requires d.Valid() && Fits(f, d) && n <= |d.score|
    ensures SumWhere(d.score, f.capped, false, n) >= 0.0
    ensures SumWhere(d.score, f.capped, false, n) == 0.0 ==> forall i :: 0 <= i < n && !f.capped[i] ==> d.score[i] == 0.0
  {
    if n > 0 {
      ScoresNonNegative(f, d, n - 1);
    }
  }

  ghost predicate Settled(f: Fill, d: Fleet)
    requires Fits(f, d)
  {
    Sum(f.share, |f.share|) == 1.0 || ScoreLeft(f, d) == 0.0
  }

  /** As many passes as devices are always enough: every pass but the last caps a device. */
  lemma {:induction false} PassesSettle(f: Fill, d: Fleet, level: real, passes: nat) returns (final: real)
    requires d.Valid() && FillAt(f, d, level) && Count(f.capped, |d.score|) + passes >= |d.score|
    ensures var r := Passes(f, d, passes); level <= final && FillAt(r, d, final) && Settled(r, d)
    decreases passes
  {
    hide Pass, FreeShare, FillAt, Count;
    FillFits(f, d, level);
    ScoresNonNegative(f, d, |d.score|);
    if passes == 0 {
      AllCapped(f, d, |d.score|);
      final := level;
    } else if ScoreLeft(f, d) <= 0.0 {
      final := level;
    } else {
      PassKeeps(f, d, level);
      var g, up := Pass(f, d), FreeShare(f) / ScoreLeft(f, d);
      if g.capped == f.capped {
        final := up;
      } else {
        final := PassesSettle(g, d, up, passes - 1);
      }
    }
  }

  lemma FillFits(f: Fill, d: Fleet, level: real)
    requires d.Valid() && FillAt(f, d, level)
    ensures Fits(f, d)
  {
  }

  lemma EmptyFill(d: Fleet)
    requires d.Valid()
    ensures FillAt(Empty(|d.score|), d, 0.0)
  {
    var f := Empty(|d.score|);
    ZeroSum(f.share, |f.share|);
    forall i | 0 <= i < |f.share| ensures f.share[i] == Min(d.cap[i] / d.bytes, 0.0 * d.score[i]) {
      NonNegativeQuotient(d.cap[i], d.bytes);
    }
  }

  lemma {:induction false} ZeroSum(xs: seq<real>, n: nat)
    requires n <= |xs| && forall i :: 0 <= i < n ==> xs[i] == 0.0
    ensures Sum(xs, n) == 0.0
  {
    if n > 0 {
      ZeroSum(xs, n - 1);
    }
  }

  /** What the devices that have a score could hold, as a share of the model. */
  function Placeable(d: Fleet, n: nat): real
    requires n <= |d.score| == |d.cap| && d.bytes > 0.0
  {
    if n == 0 then 0.0 else Placeable(d, n - 1) + (if d.score[n - 1] > 0.0 then d.cap[n - 1] / d.bytes else 0.0)
  }

  lemma {:induction false} PlaceableBounds(f: Fill, d: Fleet, level: real, n: nat)
    requires d.Valid() && FillAt(f, d, level) && n <= |d.score|
    ensures Sum(f.share, n) <= Placeable(d, n)
    ensures (forall i :: 0 <= i < n && !f.capped[i] ==> d.score[i] == 0.0) ==> Sum(f.share, n) == Placeable(d, n)
  {
    if n > 0 {
      PlaceableBounds(f, d, level, n - 1);
      var k := n - 1;
      if d.score[k] == 0.0 {
        assert level * d.score[k] == 0.0;
        NonNegativeQuotient(d.cap[k], d.bytes);
      }
    }
  }

  /** Water-filling ends in a fair division of as much of the model as the scored devices can hold. */
  lemma WaterFillIsFair(d: Fleet) returns (level: real)
    requires d.Valid()
    ensures FairAt(Filled(d).share, d, level)
    ensures Sum(Filled(d).share, |d.score|) == Min(1.0, Placeable(d, |d.score|))
  {
    hide Passes, Count, FillAt;
    EmptyFill(d);
    level := PassesSettle(Empty(|d.score|), d, 0.0, |d.score|);
    FilledTotal(Filled(d), d, level);
  }

  lemma FilledTotal(f: Fill, d: Fleet, level: real)
    requires d.Valid() && FillAt(f, d, level) && Settled(f, d)
    ensures FairAt(f.share, d, level)
    ensures Sum(f.share, |d.score|) == Min(1.0, Placeable(d, |d.score|))
  {
    PlaceableBounds(f, d, level, |d.score|);
    ScoresNonNegative(f, d, |d.score|);
  }

  lemma {:induction false} SumOrdered(xs: seq<real>, ys: seq<real>, n: nat)
    requires n <= |xs| == |ys| && forall i :: 0 <= i < n ==> xs[i] <= ys[i]
    ensures Sum(xs, n) <= Sum(ys, n)
    ensures Sum(xs, n) == Sum(ys, n) ==> xs[..n] == ys[..n]
  {
    if n > 0 {
      SumOrdered(xs, ys, n - 1);
      assert xs[..n] == xs[..n - 1] + [xs[n - 1]] && ys[..n] == ys[..n - 1] + [ys[n - 1]];
    }
  }

  /** At a lower level a device has no more. */
  lemma LowerShare(xs: seq<real>, ys: seq<real>, d: Fleet, a: real, b: real, i: nat)
    requires d.Valid() && FairAt(xs, d, a) && FairAt(ys, d, b) && a <= b && i < |xs|
    ensures i < |ys| && xs[i] <= ys[i]
  {
    var cap, score := d.cap[i] / d.bytes, d.score[i];
    assert xs[i] == Min(cap, a * score) && ys[i] == Min(cap, b * score);
    LevelBelow(a, b, score);
    MinBelow(cap, a * score, b * score);
  }

  lemma FairLengths(xs: seq<real>, ys: seq<real>, d: Fleet, a: real, b: real)
    requires d.Valid() && FairAt(xs, d, a) && FairAt(ys, d, b)
    ensures |xs| == |ys|
  {
  }

  lemma MinBelow(cap: real, x: real, y: real)
    requires x <= y
    ensures Min(cap, x) <= Min(cap, y)
  {
  }

  /** There is only one fair division with a given total. */
  lemma FairUnique(xs: seq<real>, ys: seq<real>, d: Fleet, a: real, b: real)
    requires d.Valid() && FairAt(xs, d, a) && FairAt(ys, d, b)
    requires Sum(xs, |xs|) == Sum(ys, |ys|)
    ensures xs == ys
    decreases a > b
  {
    hide FairAt, Min, Fleet.Valid;
    FairLengths(xs, ys, d, a, b);
    if a <= b {
      forall i | 0 <= i < |xs| ensures xs[i] <= ys[i] {
        LowerShare(xs, ys, d, a, b, i);
      }
      SumOrdered(xs, ys, |xs|);
    } else {
      FairUnique(ys, xs, d, b, a);
    }
  }
}
