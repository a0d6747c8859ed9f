// The value area of a volume profile: the greedy contiguous expansion from the point
// of control until a fraction of the volume is covered. Levels are volumes by price,
// indexed by ascending price; arithmetic is exact.
module ValueArea {
  import OrderBook

  datatype Interval = Interval(lo: nat, hi: nat)

  // Volume of the levels lo..hi, both ends included.
  function Volume(v: seq<real>, lo: nat, hi: nat): real
    requires lo <= hi < |v|
    decreases hi - lo
  {
    if lo == hi then v[lo] else Volume(v, lo, hi - 1) + v[hi]
  }

  predicate NonNegative(v: seq<real>) {
    forall i :: 0 <= i < |v| ==> v[i] >= 0.0
  }

  // The comparison of the two neighbours; a missing neighbour counts as -1 and ties go low.
  predicate TakesLow(v: seq<real>, a: Interval)
    requires a.lo <= a.hi < |v|
  {
    var below := if a.lo > 0 then v[a.lo - 1] else -1.0;
    var above := if a.hi < |v| - 1 then v[a.hi + 1] else -1.0;
    below >= above
  }

  // The next expansion reads a level of the profile: Python would take a price from the other end
  // below the bottom, and fail above the top.
  predicate StaysInside(v: seq<real>, a: Interval)
    requires a.lo <= a.hi < |v|
  {
    if TakesLow(v, a) then a.lo > 0 else a.hi < |v| - 1
  }

  // Neither sentinel wins against the one neighbour that is there.
  predicate BeatsSentinel(v: seq<real>, a: Interval)
    requires a.lo <= a.hi < |v|
  {
    && (a.lo == 0 && a.hi < |v| - 1 ==> v[a.hi + 1] > -1.0)
    && (a.hi == |v| - 1 && a.lo > 0 ==> v[a.lo - 1] >= -1.0)
  }

  lemma InsideExactly(v: seq<real>, a: Interval)
    requires a.lo <= a.hi < |v| && (a.lo > 0 || a.hi < |v| - 1)
    ensures StaysInside(v, a) <==> BeatsSentinel(v, a)
  {
  }

  /** About the body of the loop, entered with any interval: it can leave the profile from some interval if
      and only if some level above the lowest is -1 or less, or some level below the highest less than -1. */
  lemma SentinelChosen(v: seq<real>)
    ensures (forall lo: nat, hi: nat :: lo <= hi < |v| && (lo > 0 || hi < |v| - 1) ==> StaysInside(v, Interval(lo, hi))) <==>
              (forall i :: 0 < i < |v| ==> v[i] > -1.0) && (forall i :: 0 <= i < |v| - 1 ==> v[i] >= -1.0)
  {
    forall lo: nat, hi: nat | lo <= hi < |v| && (lo > 0 || hi < |v| - 1)
      ensures StaysInside(v, Interval(lo, hi)) <==> BeatsSentinel(v, Interval(lo, hi))
    {
      InsideExactly(v, Interval(lo, hi));
    }
    forall i | 0 < i < |v| ensures BeatsSentinel(v, Interval(0, i - 1)) <==> v[i] > -1.0 {
    }
    forall i | 0 <= i < |v| - 1 ensures BeatsSentinel(v, Interval(i + 1, |v| - 1)) <==> v[i] >= -1.0 {
    }
  }

  // The interval after k expansions from the point of control.
  function Grow(v: seq<real>, poc: nat, k: nat): (a: Interval)
    requires NonNegative(v) && poc < |v| && k < |v|
    ensures a.lo <= poc <= a.hi < |v| && a.hi - a.lo == k
  {
    if k == 0 then Interval(poc, poc)
    else
      var a := Grow(v, poc, k - 1);
      Next(v, a)
  }

  function Next(v: seq<real>, a: Interval): (b: Interval)
    requires NonNegative(v) && a.lo <= a.hi < |v| && a.hi - a.lo < |v| - 1
    ensures b == if TakesLow(v, a) then Interval(a.lo - 1, a.hi) else Interval(a.lo, a.hi + 1)
    ensures b.lo <= a.lo <= a.hi <= b.hi < |v| && b.hi - b.lo == a.hi - a.lo + 1
  {
    if TakesLow(v, a) then Interval(a.lo - 1, a.hi) else Interval(a.lo, a.hi + 1)
  }

  function Covered(v: seq<real>, poc: nat, k: nat): real
    requires NonNegative(v) && poc < |v| && k < |v|
  {
    var a := Grow(v, poc, k);
    Volume(v, a.lo, a.hi)
  }

  // The first expansion that covers the target, or the whole profile.
  predicate IsArea(v: seq<real>, poc: nat, target: real, k: nat)
    requires NonNegative(v) && poc < |v|
  {
    && k < |v|
    && (Covered(v, poc, k) >= target || k == |v| - 1)
    && forall j :: 0 <= j < k ==> Covered(v, poc, j) < target
  }

  lemma {:induction false} VolumeSplit(v: seq<real>, lo: nat, mid: nat, hi: nat)
    requires lo <= mid < hi < |v|
    ensures Volume(v, lo, hi) == Volume(v, lo, mid) + Volume(v, mid + 1, hi)
    decreases hi - mid
  {
    if mid + 1 < hi {
      VolumeSplit(v, lo, mid, hi - 1);
    }
  }

  // An expansion adds exactly the volume of the level it takes.
  lemma NextAdds(v: seq<real>, a: Interval)
    requires NonNegative(v) && a.lo <= a.hi < |v| && a.hi - a.lo < |v| - 1
    ensures var b := Next(v, a);
            Volume(v, b.lo, b.hi) == Volume(v, a.lo, a.hi) + (if TakesLow(v, a) then v[b.lo] else v[b.hi])
  {
    if TakesLow(v, a) {
      VolumeSplit(v, a.lo - 1, a.lo - 1, a.hi);
    }
  }

  // Each expansion takes the larger neighbour.
  lemma GrowIsGreedy(v: seq<real>, poc: nat, k: nat)
    requires NonNegative(v) && poc < |v| && k + 1 < |v|
    ensures var a, b := Grow(v, poc, k), Grow(v, poc, k + 1);
            && (b.lo < a.lo ==> a.hi < |v| - 1 ==> v[b.lo] >= v[a.hi + 1])
            && (b.hi > a.hi ==> a.lo > 0 ==> v[b.hi] > v[a.lo - 1])
  {
  }

  lemma {:induction false} GrowNests(v: seq<real>, poc: nat, j: nat, k: nat)
    requires NonNegative(v) && poc < |v| && j <= k < |v|
    ensures Grow(v, poc, k).lo <= Grow(v, poc, j).lo && Grow(v, poc, j).hi <= Grow(v, poc, k).hi
  {
    if j < k {
      GrowNests(v, poc, j, k - 1);
    }
  }

  lemma NonNegativeProduct(x: real, y: real)
    requires x >= 0.0 && y >= 0.0
    ensures x * y >= 0.0
  {
  }

  lemma LargerTarget(v: seq<real>, poc: nat, t1: real, t2: real, k1: nat, k2: nat)
    requires NonNegative(v) && poc < |v| && t1 <= t2 && IsArea(v, poc, t1, k1) && IsArea(v, poc, t2, k2)
    ensures k1 <= k2
    ensures Grow(v, poc, k2).lo <= Grow(v, poc, k1).lo && Grow(v, poc, k1).hi <= Grow(v, poc, k2).hi
  {
    GrowNests(v, poc, k1, k2);
  }

  lemma LargerFraction(total: real, f1: real, f2: real, t1: real, t2: real)
    requires 0.0 <= total && f1 <= f2 && t1 == total * f1 && t2 == total * f2
    ensures t1 <= t2
  {
    NonNegativeProduct(total, f2 - f1);
    assert total * (f2 - f1) == t2 - t1;
  }

  /** A larger fraction of one total never yields a smaller area: the areas are nested. */
  lemma AreasNest(v: seq<real>, poc: nat, f1: real, f2: real, total: real, t1: real, t2: real, k1: nat, k2: nat)
    requires NonNegative(v) && poc < |v| && 0.0 <= total && f1 <= f2 && t1 == total * f1 && t2 == total * f2
    requires IsArea(v, poc, t1, k1) && IsArea(v, poc, t2, k2)
    ensures k1 <= k2
    ensures Grow(v, poc, k2).lo <= Grow(v, poc, k1).lo && Grow(v, poc, k1).hi <= Grow(v, poc, k2).hi
  {
    LargerFraction(total, f1, f2, t1, t2);
    LargerTarget(v, poc, t1, t2, k1, k2);
  }

  lemma {:induction false} VolumeNonNegative(v: seq<real>, lo: nat, hi: nat)
    requires NonNegative(v) && lo <= hi < |v|
    ensures Volume(v, lo, hi) >= 0.0
    decreases hi - lo
  {
    if lo < hi {
      VolumeNonNegative(v, lo, hi - 1);
    }
  }

  // The source's target, a fraction of at most one of the whole volume, is never above it.
  lemma TargetWithinTotal(total: real, fraction: real)
    requires total >= 0.0 && 0.0 < fraction <= 1.0
    ensures total * fraction <= total
  {
    NonNegativeProduct(total, 1.0 - fraction);
    assert total * (1.0 - fraction) == total - total * fraction;
  }

  // The volumes in the order of the sorted prices.
  function Volumes(levels: map<real, real>, prices: seq<real>): seq<real>
    requires forall i :: 0 <= i < |prices| ==> prices[i] in levels
  {
    seq(|prices|, i requires 0 <= i < |prices| => levels[prices[i]])
  }

  predicate Ascending(prices: seq<real>) {
    forall i, j :: 0 <= i < j < |prices| ==> prices[i] < prices[j]
  }

  predicate Lists(prices: seq<real>, levels: map<real, real>) {
    && (forall i :: 0 <= i < |prices| ==> prices[i] in levels)
    && (forall p :: p in levels ==> p in prices)
  }

  method Sorted(levels: map<real, real>) returns (prices: seq<real>)
    ensures Ascending(prices) && Lists(prices, levels)
  {
    prices := [];
    var rest := levels.Keys;
    while rest != {}
      invariant rest <= levels.Keys && Ascending(prices)
      invariant forall i, p :: 0 <= i < |prices| && p in rest ==> prices[i] < p
      invariant forall i :: 0 <= i < |prices| ==> prices[i] in levels
      invariant forall p :: p in levels ==> p in prices || p in rest
      decreases rest
    {
      var p := OrderBook.Lowest(rest);
      prices, rest := prices + [p], rest - {p};
    }
  }

  datatype Profile =
    | InvalidFraction
    | Empty
    | Area(prices: seq<real>, volumes: seq<real>, target: real, poc: nat, area: Interval)

  // The level with the largest volume; the lowest price wins ties.
  predicate IsPoc(v: seq<real>, poc: nat) {
    && poc < |v|
    && (forall i :: 0 <= i < |v| ==> v[i] <= v[poc])
    && (forall i :: 0 <= i < poc ==> v[i] < v[poc])
  }

  method PointOfControl(v: seq<real>) returns (poc: nat)
    requires v != []
    ensures IsPoc(v, poc)
  {
    poc := 0;
    for i := 1 to |v|
      invariant poc < i
      invariant forall j :: 0 <= j < i ==> v[j] <= v[poc]
      invariant forall j :: 0 <= j < poc ==> v[j] < v[poc]
    {
      if v[i] > v[poc] {
        poc := i;
      }
    }
  }

  method Total(v: seq<real>) returns (total: real)
    requires v != []
    ensures total == Volume(v, 0, |v| - 1)
  {
    total := v[0];
    for i := 1 to |v|
      invariant total == Volume(v, 0, i - 1)
    {
      total := total + v[i];
    }
  }

  // The body of the greedy loop.
  method ExpandOnce(v: seq<real>, lo: nat, hi: nat, covered: real) returns (lo': nat, hi': nat, covered': real)
    requires NonNegative(v) && lo <= hi < |v| && hi - lo < |v| - 1
    requires covered == Volume(v, lo, hi)
    ensures Interval(lo', hi') == Next(v, Interval(lo, hi)) && lo' <= hi' < |v|
    ensures covered' == Volume(v, lo', hi')
  {
    NextAdds(v, Interval(lo, hi));
    lo', hi' := lo, hi;
    var below := if lo > 0 then v[lo - 1] else -1.0;
    var above := if hi < |v| - 1 then v[hi + 1] else -1.0;
    if below >= above {
      lo' := lo - 1;
      covered' := covered + v[lo'];
    } else {
      hi' := hi + 1;
      covered' := covered + v[hi'];
    }
  }

  // The greedy loop.
  method Expand(v: seq<real>, poc: nat, target: real) returns (area: Interval)
    requires NonNegative(v) && poc < |v|
    ensures area.lo <= poc <= area.hi < |v|
    ensures IsArea(v, poc, target, area.hi - area.lo) && area == Grow(v, poc, area.hi - area.lo)
  {
    var lo, hi, covered := poc, poc, v[poc];
    ghost var k := 0;
    while covered < target && (lo > 0 || hi < |v| - 1)
      invariant 0 <= lo <= poc <= hi < |v| && k == hi - lo
      invariant Interval(lo, hi) == Grow(v, poc, k) && covered == Volume(v, lo, hi)
      invariant forall j :: 0 <= j < k ==> Covered(v, poc, j) < target
      decreases |v| - (hi - lo)
    {
      assert Covered(v, poc, k) < target;
      lo, hi, covered := ExpandOnce(v, lo, hi, covered);
      k := k + 1;
    }
    area := Interval(lo, hi);
  }

  predicate IsValueArea(v: seq<real>, target: real, poc: nat, area: Interval)
    requires NonNegative(v)
  {
    && IsPoc(v, poc)
    && area.lo <= poc <= area.hi < |v|
    && area == Grow(v, poc, area.hi - area.lo)
    && IsArea(v, poc, target, area.hi - area.lo)
    && Volume(v, area.lo, area.hi) >= target
  }

  function TargetOf(v: seq<real>, fraction: real): real
    requires v != []
  {
    Volume(v, 0, |v| - 1) * fraction
  }

  method Target(v: seq<real>, fraction: real) returns (target: real)
    requires NonNegative(v) && v != [] && 0.0 < fraction <= 1.0
    ensures target == TargetOf(v, fraction) && target <= Volume(v, 0, |v| - 1)
  {
    var total := Total(v);
    VolumeNonNegative(v, 0, |v| - 1);
    TargetWithinTotal(total, fraction);
    target := total * fraction;
  }

  method Measure(v: seq<real>, target: real) returns (poc: nat, area: Interval)
    requires NonNegative(v) && v != [] && target <= Volume(v, 0, |v| - 1)
    ensures IsValueArea(v, target, poc, area)
  {
    poc := PointOfControl(v);
    area := Expand(v, poc, target);
  }

  // The first of the expansions from the point of control to hold the fraction of the whole volume.
  predicate HoldsFraction(v: seq<real>, fraction: real, poc: nat, area: Interval)
    requires NonNegative(v) && poc < |v|
  {
    && area.lo <= poc <= area.hi < |v|
    && Volume(v, area.lo, area.hi) >= fraction * Volume(v, 0, |v| - 1)
    && forall k :: 0 <= k < area.hi - area.lo ==>
         Volume(v, Grow(v, poc, k).lo, Grow(v, poc, k).hi) < fraction * Volume(v, 0, |v| - 1)
  }

  lemma AreaHoldsFraction(v: seq<real>, fraction: real, poc: nat, area: Interval)
    requires NonNegative(v) && v != [] && IsValueArea(v, TargetOf(v, fraction), poc, area)
    ensures HoldsFraction(v, fraction, poc, area)
  {
    FractionOf(v, fraction);
    forall k | 0 <= k < area.hi - area.lo
      ensures Volume(v, Grow(v, poc, k).lo, Grow(v, poc, k).hi) < TargetOf(v, fraction)
    {
      assert Covered(v, poc, k) < TargetOf(v, fraction);
    }
  }

  lemma FractionOf(v: seq<real>, fraction: real)
    requires v != []
    ensures TargetOf(v, fraction) == fraction * Volume(v, 0, |v| - 1)
  {
  }

  /** value_area: the first greedy expansion from the point of control that covers the fraction,
      which it always reaches. */
  method ValueArea(levels: map<real, real>, fraction: real) returns (r: Profile)
    requires forall p :: p in levels ==> levels[p] >= 0.0
    ensures r.InvalidFraction? <==> !(0.0 < fraction <= 1.0)
    ensures r.Empty? ==> levels == map[]
    ensures r.Area? ==>
              && r.prices != [] && Ascending(r.prices) && Lists(r.prices, levels)
              && r.volumes == Volumes(levels, r.prices) && NonNegative(r.volumes)
              && r.target == TargetOf(r.volumes, fraction)
              && IsValueArea(r.volumes, r.target, r.poc, r.area)
              && HoldsFraction(r.volumes, fraction, r.poc, r.area)
  {
    if !(0.0 < fraction <= 1.0) {
      return InvalidFraction;
    }
    if levels == map[] {
      return Empty;
    }
    var prices := Sorted(levels);
    OrderBook.SomePrice(levels.Keys);
    var v := Volumes(levels, prices);
    var target := Target(v, fraction);
    var poc, area := Measure(v, target);
    AreaHoldsFraction(v, fraction, poc, area);
    r := Area(prices, v, target, poc, area);
  }
}
