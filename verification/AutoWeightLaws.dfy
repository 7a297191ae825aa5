/** When a split is published and when the default is kept, and what the floor does with what it drops. */
module AutoWeightLaws {
  import opened AutoWeight
  import opened WaterFilling
  import opened Wrappers

  // ---------- the floor ----------

  /** Some share lies between nothing and the floor. */
  predicate SomeSmall(share: seq<real>, floor: real) {
    exists i :: 0 <= i < |share| && 0.0 < share[i] < floor
  }

  predicate Stays(share: seq<real>, floor: real, i: nat)
    requires i < |share|
  {
    share[i] > 0.0 && share[i] >= floor
  }

  /** Two devices have positive shares that reach the floor. */
  predicate TwoStay(share: seq<real>, floor: real) {
    exists i, j :: 0 <= i < j < |share| && Stays(share, floor, i) && Stays(share, floor, j)
  }

  lemma {:induction false} UsedTwo(share: seq<real>, n: nat)
    requires n <= |share|
    ensures Used(share, n) >= 1 <==> exists i :: 0 <= i < n && share[i] > 0.0
    ensures Used(share, n) >= 2 <==> exists i, j :: 0 <= i < j < n && share[i] > 0.0 && share[j] > 0.0
  {
    if n > 0 {
      UsedTwo(share, n - 1);
      if share[n - 1] > 0.0 && Used(share, n - 1) >= 1 {
        var i :| 0 <= i < n - 1 && share[i] > 0.0;
        assert 0 <= i < n - 1 < n;
      }
    }
  }

  /** The floor keeps the default split exactly when it drops some share and fewer than two others are left. */
  lemma FloorRefuses(f: Fill, floor: real)
    requires |f.share| == |f.capped|
    ensures Floored(f, floor).None? <==> SomeSmall(f.share, floor) && !TwoStay(f.share, floor)
    ensures !SomeSmall(f.share, floor) ==> Floored(f, floor) == Some(f.share)
  {
    hide Redistributed, SumWhere;
    var n, g := |f.share|, DropSmall(f, floor);
    UsedTwo(g.share, n);
    assert Dropped(f.share, floor, n) > 0.0 <==> SomeSmall(f.share, floor) by { SmallDropped(f.share, floor); }
    forall i | 0 <= i < n ensures g.share[i] > 0.0 <==> Stays(f.share, floor, i) {
    }
  }

  lemma SmallDropped(share: seq<real>, floor: real)
    ensures Dropped(share, floor, |share|) > 0.0 <==> SomeSmall(share, floor)
  {
  }

  /** What is dropped goes to the uncapped devices left, in proportion to their shares; capped devices keep theirs. */
  lemma DroppedInProportion(f: Fill, floor: real, i: nat, j: nat)
    requires |f.share| == |f.capped| && Floored(f, floor).Some? && i < |f.share| && j < |f.share|
    requires !(0.0 < f.share[i] < floor) && !(0.0 < f.share[j] < floor)
    ensures var r := Floored(f, floor).value;
      && (f.capped[i] ==> r[i] == f.share[i])
      && (!f.capped[i] && !f.capped[j] && f.share[i] > 0.0 && f.share[j] > 0.0 ==> r[i] * f.share[j] == r[j] * f.share[i])
  {
    hide Dropped, Used, SumWhere, TopUp;
    var g, n, dropped := DropSmall(f, floor), |f.share|, Dropped(f.share, floor, |f.share|);
    var r, uncapped := Floored(f, floor).value, SumWhere(g.share, g.capped, false, n);
    if dropped > 0.0 && uncapped > 0.0 {
      Proportional(f.share[i], f.share[j], dropped, uncapped);
    }
  }

  lemma Proportional(x: real, y: real, dropped: real, uncapped: real)
    requires uncapped > 0.0
    ensures TopUp(x, dropped, uncapped) * y == TopUp(y, dropped, uncapped) * x
  {
    var k := dropped / uncapped;
    TopUpIs(x, dropped, uncapped);
    TopUpIs(y, dropped, uncapped);
    assert (x + k * x) * y == (y + k * y) * x;
  }

  lemma TopUpIs(x: real, dropped: real, uncapped: real)
    requires uncapped > 0.0
    ensures TopUp(x, dropped, uncapped) == x + dropped / uncapped * x
  {
  }

  // ---------- publishing ----------

  /** The default split is kept for too few or too many devices, without a model size, when the floor refuses, and
      when less than all but a thousandth of the model is placed; and in no other case. Otherwise what the floor leaves
      is published.
   */
  lemma KeptDefault(q: Request)
    requires q.Valid()
    ensures Published(q).None? <==>
              || |q.score| < 2 || |q.score| > q.maxDevices || q.bytes <= 0.0
              || (var share := Filled(FleetOf(q)).share; SomeSmall(share, q.minShare) && !TwoStay(share, q.minShare))
              || (var r := Floored(Filled(FleetOf(q)), q.minShare); r.Some? && Sum(r.value, |r.value|) < 0.999)
    ensures Published(q).Some? ==> Published(q) == Floored(Filled(FleetOf(q)), q.minShare)
  {
    hide Filled, Floored, Sum, FleetOf, SomeSmall, TwoStay;
    if |q.score| >= 2 && |q.score| <= q.maxDevices && q.bytes > 0.0 {
      FilledLengths(q);
      FloorRefuses(Filled(FleetOf(q)), q.minShare);
    }
  }

  lemma FilledLengths(q: Request)
    requires q.Valid() && q.bytes > 0.0
    ensures var f := Filled(FleetOf(q)); |f.share| == |f.capped| == |q.score|
  {
    hide Capacity;
  }

  /** In terms of the devices alone: where all of the model can be placed and no share is small, the fair shares are
      published.
   */
  lemma FairPublished(q: Request)
    requires q.Valid() && 2 <= |q.score| <= q.maxDevices && q.bytes > 0.0
    requires Placeable(FleetOf(q), |q.score|) >= 1.0 && !SomeSmall(Filled(FleetOf(q)).share, q.minShare)
    ensures Published(q) == Some(Filled(FleetOf(q)).share)
  {
    hide Filled, Floored, Sum, Placeable, SomeSmall, TwoStay;
    KeptDefault(q);
    FilledLengths(q);
    FloorRefuses(Filled(FleetOf(q)), q.minShare);
    var level := WaterFillIsFair(FleetOf(q));
  }

  /** A published split never leaves a single device after something was dropped. */
  lemma PublishedTwo(q: Request)
    requires q.Valid() && Published(q).Some? && SomeSmall(Filled(FleetOf(q)).share, q.minShare)
    ensures var r := Published(q).value; exists i, j :: 0 <= i < j < |r| && r[i] > 0.0 && r[j] > 0.0
  {
    hide Filled, Floored, Sum, SomeSmall, TooSmall, DropSmall, Dropped, SumWhere;
    PublishedIsFloored(q);
    var f := Filled(FleetOf(q));
    FilledLengths(q);
    FilledTotalAtMostOne(q);
    FloorRefuses(f, q.minShare);
    FloorKeepsTotal(f, q.minShare);
    var i, j :| 0 <= i < j < |f.share| && Stays(f.share, q.minShare, i) && Stays(f.share, q.minShare, j);
    KeptAtLeast(f, q.minShare, i);
    KeptAtLeast(f, q.minShare, j);
  }

  lemma KeptAtLeast(f: Fill, floor: real, i: nat)
    requires |f.share| == |f.capped| && NonNegative(f.share) && Floored(f, floor).Some? && i < |f.share| && Stays(f.share, floor, i)
    ensures Floored(f, floor).value[i] > 0.0
  {
    hide Floored, DropSmall, Dropped, SumWhere, Sum;
    FloorKeepsTotal(f, floor);
  }

  // ---------- reserves ----------

  const MEBIBYTE := 1048576.0

  /** Without an override the reserve is a fiftieth of the model, but no less than 512 MiB, and no more than 2 GiB by
      layers or 8 GiB by tensors.
   */
  lemma ReserveIs(q: Request)
    ensures var r, most := ComputeReserve(q), if q.tensorMode then 8192.0 * MEBIBYTE else 2048.0 * MEBIBYTE;
      if q.reserve.Some? then r == q.reserve.value * MEBIBYTE
      else
        && 512.0 * MEBIBYTE <= r <= most
        && (512.0 * MEBIBYTE <= q.bytes / 50.0 <= most ==> r == q.bytes / 50.0)
        && (q.bytes / 50.0 < 512.0 * MEBIBYTE ==> r == 512.0 * MEBIBYTE)
        && (q.bytes / 50.0 > most ==> r == most)
  {
    assert 0.02 * q.bytes == q.bytes / 50.0;
  }

  /** A layer is the model divided by its layers, of which at least 24 are assumed. */
  lemma LayerIs(q: Request)
    ensures LayerBytes(q) * (if q.layers >= 24 then q.layers as real else 24.0) == q.bytes
  {
    if q.layers > 24 {
      Divided(q.bytes, q.layers as real);
    }
    Divided(q.bytes, 24.0);
  }

  lemma Divided(x: real, y: real)
    requires y != 0.0
    ensures x / y * y == x
  {
  }
}
