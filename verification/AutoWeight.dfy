/** Splitting a model over devices by speed: capacities, water-filling, the floor on small shares, and
    the decision whether to publish the split or keep the default one.
 */
module AutoWeight {
  import opened WaterFilling
  import opened Wrappers

  const MIB := 1048576.0

  /** What is known about the devices and the model; `reserve` is the override of the compute reserve. */
  datatype Request = Request(
    score: seq<real>, free: seq<real>, bytes: real, kvBytes: real, layers: nat,
    tensorMode: bool, reserve: Option<real>, minShare: real, maxDevices: nat)
  {
    ghost predicate Valid() {
      && |score| == |free| && kvBytes >= 0.0 && bytes >= 0.0
      && (forall i :: 0 <= i < |score| ==> score[i] >= 0.0)
    }
  }

  function Max(a: real, b: real): real {
    if a >= b then a else b
  }

  // ---------- capacities ----------

  function ComputeReserve(q: Request): real {
    if q.reserve.Some? then q.reserve.value * MIB
    else Min((if q.tensorMode then 8192.0 else 2048.0) * MIB, Max(512.0 * MIB, 0.02 * q.bytes))
  }

  /** The bytes of one layer; an unreadable or small layer count is taken as 24. */
  function LayerBytes(q: Request): real {
    q.bytes / (if q.layers > 24 then q.layers as real else 24.0)
  }

  function TensorRoom(base: real, compute: real): real {
    Max(0.0, base - compute)
  }

  function LayerRoom(base: real, compute: real, kvScale: real, layer: real): real {
    Max(0.0, (base - compute) * kvScale - layer)
  }

  /** The weight bytes a device with this much free memory may be given. */
  function Capacity(q: Request, free: real): (r: real)
    requires q.Valid() && q.bytes > 0.0
    ensures r >= 0.0
  {
    if q.tensorMode then TensorRoom(free * 0.9, ComputeReserve(q))
    else LayerRoom(free * 0.9, ComputeReserve(q), q.bytes / (q.bytes + q.kvBytes), LayerBytes(q))
  }

  function FleetOf(q: Request): (d: Fleet)
    requires q.Valid() && q.bytes > 0.0
    ensures d.Valid() && |d.score| == |q.score|
  {
    Fleet(q.score, seq(|q.free|, i requires 0 <= i < |q.free| => Capacity(q, q.free[i])), q.bytes)
  }

  method Capacities(q: Request) returns (cap: array<real>)
    requires q.Valid() && q.bytes > 0.0
    ensures fresh(cap) && cap[..] == FleetOf(q).cap
  {
    hide ComputeReserve, LayerBytes, LayerRoom, TensorRoom;
    var n := |q.free|;
    cap := new real[n](_ => 0.0);
    for i := 0 to n
      invariant forall j :: 0 <= j < i ==> cap[j] == q.free[j] * 0.9
    {
      cap[i] := q.free[i] * 0.9;
    }
    var compute := ComputeReserve(q);
    if q.tensorMode {
      for i := 0 to n
        invariant forall j :: i <= j < n ==> cap[j] == q.free[j] * 0.9
        invariant forall j :: 0 <= j < i ==> cap[j] == Capacity(q, q.free[j])
      {
        cap[i] := TensorRoom(cap[i], compute);
      }
    } else {
      var layer := LayerBytes(q);
      var kvScale := q.bytes / (q.bytes + q.kvBytes);
      for i := 0 to n
        invariant forall j :: i <= j < n ==> cap[j] == q.free[j] * 0.9
        invariant forall j :: 0 <= j < i ==> cap[j] == Capacity(q, q.free[j])
      {
        cap[i] := LayerRoom(cap[i], compute, kvScale, layer);
      }
    }
    assert cap[..] == FleetOf(q).cap;
  }

  lemma LayerFits(x: real, w: real, kv: real, room: real, layer: real)
    requires w > 0.0 && kv >= 0.0
    ensures x * w <= room * (w / (w + kv)) - layer <==> x * (w + kv) + layer * (w + kv) / w <= room
  {
    var s := w / (w + kv);
    var t := (w + kv) / w;
    assert s * t == 1.0 && s > 0.0 && t > 0.0;
    assert x * w * t == x * (w + kv);
    assert room * s * t == room;
    assert layer * (w + kv) / w == layer * t;
    Scaled(x * w, room * s - layer, t);
    assert (room * s - layer) * t == room * s * t - layer * t;
  }

  lemma Scaled(a: real, b: real, t: real)
    requires t > 0.0
    ensures a <= b <==> a * t <= b * t
  {
  }

  /** In layer mode a positive share is within the capacity exactly when the weights, their cache, one
      whole layer of rounding with its cache, and the compute reserve fit in nine tenths of the memory. */
  lemma LayerCapacitySound(q: Request, free: real, share: real)
    requires q.Valid() && q.bytes > 0.0 && !q.tensorMode && share > 0.0
    ensures share * q.bytes <= Capacity(q, free) <==>
              share * (q.bytes + q.kvBytes) + LayerBytes(q) * (q.bytes + q.kvBytes) / q.bytes + ComputeReserve(q) <= free * 0.9
  {
    hide ComputeReserve, LayerBytes;
    assert share * q.bytes > 0.0;
    LayerFits(share, q.bytes, q.kvBytes, free * 0.9 - ComputeReserve(q), LayerBytes(q));
  }

  lemma TensorCapacitySound(q: Request, free: real, share: real)
    requires q.Valid() && q.bytes > 0.0 && q.tensorMode && share > 0.0
    ensures share * q.bytes <= Capacity(q, free) <==> share * q.bytes + ComputeReserve(q) <= free * 0.9
  {
    hide ComputeReserve;
    assert share * q.bytes > 0.0;
  }

  // ---------- the floor ----------

  predicate TooSmall(share: real, floor: real) {
    0.0 < share < floor
  }

  function Dropped(share: seq<real>, floor: real, n: nat): (r: real)
    requires n <= |share|
    ensures r >= 0.0
    ensures r == 0.0 <==> forall i :: 0 <= i < n ==> !TooSmall(share[i], floor)
  {
    if n == 0 then 0.0
    else Dropped(share, floor, n - 1) + (if TooSmall(share[n - 1], floor) then share[n - 1] else 0.0)
  }

  function DropSmall(f: Fill, floor: real): (g: Fill)
    requires |f.share| == |f.capped|
    ensures |g.share| == |g.capped| == |f.share|
  {
    Fill(seq(|f.share|, i requires 0 <= i < |f.share| => if TooSmall(f.share[i], floor) then 0.0 else f.share[i]),
         seq(|f.share|, i requires 0 <= i < |f.share| => f.capped[i] || TooSmall(f.share[i], floor)))
  }

  function Used(share: seq<real>, n: nat): (c: nat)
    requires n <= |share|
  {
    if n == 0 then 0 else Used(share, n - 1) + (if share[n - 1] > 0.0 then 1 else 0)
  }

  function TopUp(share: real, dropped: real, uncapped: real): real
    requires uncapped > 0.0
  {
    share + dropped * share / uncapped
  }

  function Redistributed(f: Fill, dropped: real, uncapped: real): (share: seq<real>)
    requires |f.share| == |f.capped| && uncapped > 0.0
    ensures |share| == |f.share|
  {
    seq(|f.share|, i requires 0 <= i < |f.share| =>
      if !f.capped[i] && f.share[i] > 0.0 then TopUp(f.share[i], dropped, uncapped) else f.share[i])
  }

  /** The shares after the floor, or nothing if fewer than two devices would remain. */
  function Floored(f: Fill, floor: real): (r: Option<seq<real>>)
    requires |f.share| == |f.capped|
    ensures r.Some? ==> |r.value| == |f.share|
  {
    var n, dropped := |f.share|, Dropped(f.share, floor, |f.share|);
    var g := DropSmall(f, floor);
    if dropped <= 0.0 then Some(f.share)
    else if Used(g.share, n) < 2 then None
    else
      var uncapped := SumWhere(g.share, g.capped, false, n);
      if uncapped > 0.0 then Some(Redistributed(g, dropped, uncapped)) else Some(g.share)
  }

  method DropLoop(share: array<real>, capped: array<bool>, floor: real) returns (dropped: real)
    requires share.Length == capped.Length
    modifies share, capped
    ensures dropped == Dropped(old(share[..]), floor, share.Length)
    ensures Fill(share[..], capped[..]) == DropSmall(old(Fill(share[..], capped[..])), floor)
  {
    dropped := 0.0;
    ghost var f := Fill(share[..], capped[..]);
    for i := 0 to share.Length
      invariant dropped == Dropped(f.share, floor, i)
      invariant forall j :: i <= j < share.Length ==> share[j] == f.share[j] && capped[j] == f.capped[j]
      invariant forall j :: 0 <= j < i ==> share[j] == DropSmall(f, floor).share[j] && capped[j] == DropSmall(f, floor).capped[j]
    {
      if 0.0 < share[i] && share[i] < floor {
        dropped := dropped + share[i];
        share[i] := 0.0;
        capped[i] := true;
      }
    }
    assert share[..] == DropSmall(f, floor).share && capped[..] == DropSmall(f, floor).capped;
  }

  method FloorStage(share: array<real>, capped: array<bool>, floor: real) returns (ok: bool)
    requires share.Length == capped.Length
    modifies share, capped
    ensures ok == Floored(old(Fill(share[..], capped[..])), floor).Some?
    ensures ok ==> Some(share[..]) == Floored(old(Fill(share[..], capped[..])), floor)
  {
    ghost var f := Fill(share[..], capped[..]);
    var dropped := DropLoop(share, capped, floor);
    if dropped > 0.0 {
      ghost var g := DropSmall(f, floor);
      var uncapped, used := 0.0, 0;
      for i := 0 to share.Length
        invariant uncapped == SumWhere(g.share, g.capped, false, i) && used == Used(g.share, i)
      {
        uncapped := uncapped + (if capped[i] then 0.0 else share[i]);
        used := used + (if share[i] > 0.0 then 1 else 0);
      }
      if used < 2 {
        return false;
      }
      RedistributeLoop(share, capped, dropped, uncapped);
    } else {
      NothingDropped(f, floor);
    }
    ok := true;
  }

  method RedistributeLoop(share: array<real>, capped: array<bool>, dropped: real, uncapped: real)
    requires share.Length == capped.Length
    modifies share
    ensures uncapped <= 0.0 ==> share[..] == old(share[..])
    ensures uncapped > 0.0 ==> share[..] == Redistributed(old(Fill(share[..], capped[..])), dropped, uncapped)
  {
    ghost var g := Fill(share[..], capped[..]);
    var i := 0;
    while i < share.Length && uncapped > 0.0
      invariant 0 <= i <= share.Length
      invariant uncapped <= 0.0 ==> i == 0
      invariant forall j :: i <= j < share.Length ==> share[j] == g.share[j]
      invariant uncapped > 0.0 ==> forall j :: 0 <= j < i ==> share[j] == Redistributed(g, dropped, uncapped)[j]
    {
      if !capped[i] && share[i] > 0.0 {
        share[i] := share[i] + dropped * share[i] / uncapped;
      }
      i := i + 1;
    }
    assert uncapped <= 0.0 ==> share[..] == g.share;
    assert uncapped > 0.0 ==> share[..] == Redistributed(g, dropped, uncapped);
  }

  lemma NothingDropped(f: Fill, floor: real)
    requires |f.share| == |f.capped| && Dropped(f.share, floor, |f.share|) == 0.0
    ensures DropSmall(f, floor) == f
  {
    var g := DropSmall(f, floor);
    assert g.share == f.share && g.capped == f.capped;
  }

  // ---------- what the floor does to the shares ----------

  ghost predicate NonNegative(share: seq<real>) {
    forall i :: 0 <= i < |share| ==> share[i] >= 0.0
  }

  lemma {:induction false} DropSum(f: Fill, floor: real, n: nat)
    requires n <= |f.share| == |f.capped|
    ensures Sum(DropSmall(f, floor).share, n) == Sum(f.share, n) - Dropped(f.share, floor, n)
  {
    if n > 0 {
      DropSum(f, floor, n - 1);
    }
  }

  lemma TopUpShares(share: real, dropped: real, uncapped: real)
    requires share >= 0.0 && dropped >= 0.0 && uncapped > 0.0
    ensures TopUp(share, dropped, uncapped) == share + Offer(dropped / uncapped, share) >= share
  {
    assert dropped / uncapped >= 0.0;
    assert dropped / uncapped * share >= 0.0;
  }

  lemma OfferAdds(k: real, a: real, b: real)
    ensures Offer(k, a + b) == Offer(k, a) + Offer(k, b) && Offer(k, 0.0) == 0.0
  {
  }

  /** Topping up adds to the total in proportion to the uncapped part. */
  lemma {:induction false} TopUpSum(g: Fill, r: seq<real>, k: real, n: nat)
    requires n <= |g.share| == |g.capped| == |r|
    requires forall i :: 0 <= i < n ==> r[i] == if g.capped[i] then g.share[i] else g.share[i] + Offer(k, g.share[i])
    ensures Sum(r, n) == Sum(g.share, n) + Offer(k, SumWhere(g.share, g.capped, false, n))
  {
    hide Offer;
    OfferAdds(k, 0.0, 0.0);
    if n > 0 {
      TopUpSum(g, r, k, n - 1);
      OfferAdds(k, SumWhere(g.share, g.capped, false, n - 1), g.share[n - 1]);
    }
  }

  lemma RedistributedSum(g: Fill, dropped: real, uncapped: real)
    requires |g.share| == |g.capped| && NonNegative(g.share) && dropped >= 0.0
    requires uncapped == SumWhere(g.share, g.capped, false, |g.share|) > 0.0
    ensures var r := Redistributed(g, dropped, uncapped);
            && Sum(r, |r|) == Sum(g.share, |r|) + dropped
            && forall i :: 0 <= i < |r| ==> g.share[i] <= r[i] && (g.share[i] == 0.0 ==> r[i] == 0.0)
  {
    hide Sum, SumWhere, TopUp;
    var r, k := Redistributed(g, dropped, uncapped), dropped / uncapped;
    forall i | 0 <= i < |r|
      ensures r[i] == if g.capped[i] then g.share[i] else g.share[i] + Offer(k, g.share[i])
      ensures g.share[i] <= r[i] && (g.share[i] == 0.0 ==> r[i] == 0.0)
    {
      TopUpShares(g.share[i], dropped, uncapped);
    }
    TopUpSum(g, r, k, |r|);
    DivideBelow(dropped, uncapped, 0.0);
  }

  /** What remains after the floor: nothing between zero and the floor, and the same total unless no
      uncapped device is left to take what was dropped. */
  lemma FloorKeepsTotal(f: Fill, floor: real)
    requires |f.share| == |f.capped| && NonNegative(f.share) && Floored(f, floor).Some?
    ensures var r, g, n := Floored(f, floor).value, DropSmall(f, floor), |f.share|;
            && NonNegative(r)
            && (forall i :: 0 <= i < n ==> !TooSmall(r[i], floor))
            && (forall i :: 0 <= i < n ==> if TooSmall(f.share[i], floor) then r[i] == 0.0 else r[i] >= f.share[i])
            && (Sum(r, n) == Sum(f.share, n) <==>
                  Dropped(f.share, floor, n) == 0.0 || SumWhere(g.share, g.capped, false, n) > 0.0)
            && Sum(r, n) <= Sum(f.share, n)
  {
    hide SumWhere, Sum, Dropped;
    var n, dropped, g := |f.share|, Dropped(f.share, floor, |f.share|), DropSmall(f, floor);
    DropSum(f, floor, n);
    if dropped > 0.0 {
      var uncapped := SumWhere(g.share, g.capped, false, n);
      if uncapped > 0.0 {
        RedistributedSum(g, dropped, uncapped);
      }
    }
  }

  lemma {:induction false} UsedBound(share: seq<real>, floor: real, n: nat)
    requires n <= |share| && NonNegative(share) && floor >= 0.0
    requires forall i :: 0 <= i < n ==> !TooSmall(share[i], floor)
    ensures Used(share, n) as real * floor <= Sum(share, n)
  {
    if n > 0 {
      UsedBound(share, floor, n - 1);
      assert (Used(share, n - 1) + 1) as real * floor == Used(share, n - 1) as real * floor + floor;
    }
  }

  // ---------- the published split ----------

  /** The split to publish, or nothing when the default split is kept. */
  function Published(q: Request): Option<seq<real>>
    requires q.Valid()
  {
    if |q.score| < 2 || |q.score| > q.maxDevices || q.bytes <= 0.0 then None
    else
      var r := Floored(Filled(FleetOf(q)), q.minShare);
      if r.None? || Sum(r.value, |r.value|) < 0.999 then None else r
  }

  method ApplyAutoWeight(q: Request) returns (split: Option<seq<real>>)
    requires q.Valid()
    ensures split == Published(q)
  {
    hide Filled, Floored, FleetOf, Capacity;
    var n := |q.score|;
    if n < 2 || n > q.maxDevices || q.bytes <= 0.0 {
      return None;
    }
    var cap := Capacities(q);
    var d := Fleet(q.score, cap[..], q.bytes);
    FleetIs(q, d);
    var share, capped := WaterFill(d);
    var ok := FloorStage(share, capped, q.minShare);
    if !ok {
      return None;
    }
    var total := 0.0;
    for i := 0 to n
      invariant total == Sum(share[..], i)
    {
      total := total + share[i];
    }
    if total < 0.999 {
      return None;
    }
    split := Some(share[..]);
  }

  lemma FleetIs(q: Request, d: Fleet)
    requires q.Valid() && q.bytes > 0.0
    requires d.score == q.score && d.bytes == q.bytes && d.cap == FleetOf(q).cap
    ensures d == FleetOf(q)
  {
  }

  /** Every published split places all of the model up to a thousandth, gives each device nothing or at
      least the floor, and so uses at most one device per floor-sized share. */
  lemma PublishedSound(q: Request)
    requires q.Valid() && Published(q).Some?
    ensures var r := Published(q).value;
            && |r| == |q.score| && NonNegative(r)
            && 0.999 <= Sum(r, |r|) <= 1.0
            && (forall i :: 0 <= i < |r| ==> !TooSmall(r[i], q.minShare))
            && (q.minShare > 0.0 ==> Used(r, |r|) as real <= 1.0 / q.minShare)
  {
    hide Filled, Floored, Sum, Used, Published, TooSmall, DropSmall;
    PublishedIsFloored(q);
    FilledTotalAtMostOne(q);
    FloorKeepsTotal(Filled(FleetOf(q)), q.minShare);
    var r := Published(q).value;
    if q.minShare > 0.0 {
      UsedBound(r, q.minShare, |r|);
      DivideBelow(1.0, q.minShare, Used(r, |r|) as real);
    }
  }

  lemma PublishedIsFloored(q: Request)
    requires q.Valid() && Published(q).Some?
    ensures q.bytes > 0.0 && Published(q) == Floored(Filled(FleetOf(q)), q.minShare)
    ensures 0.999 <= Sum(Published(q).value, |Published(q).value|)
  {
  }

  lemma FilledTotalAtMostOne(q: Request)
    requires q.Valid() && q.bytes > 0.0
    ensures NonNegative(Filled(FleetOf(q)).share) && Sum(Filled(FleetOf(q)).share, |q.score|) <= 1.0
  {
    hide Filled, Sum;
    var level := WaterFillIsFair(FleetOf(q));
    FairNonNegative(Filled(FleetOf(q)).share, FleetOf(q), level);
  }

  /** A model that does not fit is never distributed: the default split is kept. */
  lemma MisfitKeepsDefault(q: Request)
    requires q.Valid() && q.bytes > 0.0 && Placeable(FleetOf(q), |q.score|) < 0.999
    ensures Published(q).None?
  {
    hide Filled, Floored, Sum, Placeable, TooSmall, DropSmall;
    if Published(q).Some? {
      PublishedIsFloored(q);
      FilledTotalAtMostOne(q);
      var level := WaterFillIsFair(FleetOf(q));
      FloorKeepsTotal(Filled(FleetOf(q)), q.minShare);
    }
  }

  lemma FairNonNegative(share: seq<real>, d: Fleet, level: real)
    requires d.Valid() && FairAt(share, d, level)
    ensures NonNegative(share)
  {
    forall i | 0 <= i < |share| ensures share[i] >= 0.0 {
      NonNegativeQuotient(d.cap[i], d.bytes);
      LevelBelow(0.0, level, d.score[i]);
    }
  }

  /** Before the floor no device is given more than it can hold, whatever the mode. */
  lemma WaterFillFits(q: Request, i: nat)
    requires q.Valid() && q.bytes > 0.0 && i < |q.score| && Filled(FleetOf(q)).share[i] > 0.0
    ensures var share := Filled(FleetOf(q)).share[i];
            if q.tensorMode then share * q.bytes + ComputeReserve(q) <= q.free[i] * 0.9
            else share * (q.bytes + q.kvBytes) + LayerBytes(q) * (q.bytes + q.kvBytes) / q.bytes + ComputeReserve(q)
                   <= q.free[i] * 0.9
  {
    hide Filled, Capacity, ComputeReserve, LayerBytes;
    var d := FleetOf(q);
    var level := WaterFillIsFair(d);
    var share := Filled(d).share[i];
    DivideBelow(d.cap[i], d.bytes, share);
    if q.tensorMode {
      TensorCapacitySound(q, q.free[i], share);
    } else {
      LayerCapacitySound(q, q.free[i], share);
    }
  }
}
