// The bounded activity summary of one tape: 181 one-second rows and 128 closed
// rotations stand for an unbounded history of prints. A ghost history records every
// print ever added; the invariant says what the retained rows still know about it.
module EventFeatures {
  import opened Common

  const SECONDS := 181
  const ROTATIONS := 128
  const BASELINE := 512
  const BUCKETS := 5

  // One second of prints: counts, and notional by size bucket for each aggressor side.
  datatype Second = Second(start: int, receipt: int, count: nat, classified: nat, buy: seq<real>, sell: seq<real>)

  datatype Rotation = Rotation(start: int, threshold: real, first: real, last: real, count: nat,
                               notional: real, delta: real, path: real)

  datatype Closed = Closed(rotation: Rotation, end: int, receipt: int, efficiency: real)

  function SecondOf(event: int): int {
    event / 1000 * 1000
  }

  // ---------------------------------------------------------------- the whole history

  predicate Within(t: Trade, a: int, b: int) {
    a <= t.event < b
  }

  function CountIn(h: seq<Trade>, a: int, b: int): nat {
    if h == [] then 0
    else CountIn(h[..|h| - 1], a, b) + (if Within(h[|h| - 1], a, b) then 1 else 0)
  }

  // Notional printed on one aggressor side in [a, b).
  function NotionalIn(h: seq<Trade>, buy: bool, a: int, b: int): real {
    if h == [] then 0.0
    else
      var t := h[|h| - 1];
      NotionalIn(h[..|h| - 1], buy, a, b) + (if Within(t, a, b) && t.buy == buy then t.Notional() else 0.0)
  }

  // ---------------------------------------------------------------- the retained rows

  function Sum(v: seq<real>): real {
    if v == [] then 0.0 else Sum(v[..|v| - 1]) + v[|v| - 1]
  }

  predicate InRange(r: Second, a: int, b: int) {
    a <= r.start < b
  }

  function RowsCount(rows: seq<Second>, a: int, b: int): nat {
    if rows == [] then 0
    else RowsCount(rows[..|rows| - 1], a, b) + (if InRange(rows[|rows| - 1], a, b) then rows[|rows| - 1].count else 0)
  }

  function RowsClassified(rows: seq<Second>, a: int, b: int): nat {
    if rows == [] then 0
    else
      RowsClassified(rows[..|rows| - 1], a, b)
      + (if InRange(rows[|rows| - 1], a, b) then rows[|rows| - 1].classified else 0)
  }

  function Amounts(r: Second, buy: bool): seq<real> {
    if buy then r.buy else r.sell
  }

  function RowsNotional(rows: seq<Second>, buy: bool, a: int, b: int): real {
    if rows == [] then 0.0
    else
      RowsNotional(rows[..|rows| - 1], buy, a, b)
      + (if InRange(rows[|rows| - 1], a, b) then Sum(Amounts(rows[|rows| - 1], buy)) else 0.0)
  }

  predicate Aligned(a: int, b: int) {
    a % 1000 == 0 && b % 1000 == 0
  }

  lemma AlignedWindow(event: int, a: int, b: int)
    requires Aligned(a, b)
    ensures a <= event < b <==> a <= SecondOf(event) < b
  {
  }

  lemma RowsSnoc(rows: seq<Second>, r: Second, buy: bool, a: int, b: int)
    ensures RowsCount(rows + [r], a, b) == RowsCount(rows, a, b) + (if InRange(r, a, b) then r.count else 0)
    ensures RowsClassified(rows + [r], a, b)
         == RowsClassified(rows, a, b) + (if InRange(r, a, b) then r.classified else 0)
    ensures RowsNotional(rows + [r], buy, a, b)
         == RowsNotional(rows, buy, a, b) + (if InRange(r, a, b) then Sum(Amounts(r, buy)) else 0.0)
  {
    assert (rows + [r])[..|rows + [r]| - 1] == rows;
  }

  // Evicting a row outside the range changes no total.
  lemma {:induction false} RowsEvict(rows: seq<Second>, buy: bool, a: int, b: int)
    requires rows != [] && !InRange(rows[0], a, b)
    ensures RowsCount(rows[1..], a, b) == RowsCount(rows, a, b)
    ensures RowsClassified(rows[1..], a, b) == RowsClassified(rows, a, b)
    ensures RowsNotional(rows[1..], buy, a, b) == RowsNotional(rows, buy, a, b)
  {
    if |rows| > 1 {
      RowsEvict(rows[..|rows| - 1], buy, a, b);
      assert rows[1..][..|rows[1..]| - 1] == rows[..|rows| - 1][1..];
    }
  }

  lemma HistorySnoc(h: seq<Trade>, t: Trade, buy: bool, a: int, b: int)
    ensures CountIn(h + [t], a, b) == CountIn(h, a, b) + (if Within(t, a, b) then 1 else 0)
    ensures NotionalIn(h + [t], buy, a, b)
         == NotionalIn(h, buy, a, b) + (if Within(t, a, b) && t.buy == buy then t.Notional() else 0.0)
  {
    assert (h + [t])[..|h + [t]| - 1] == h;
  }

  lemma {:induction false} SumUpdate(v: seq<real>, i: nat, x: real)
    requires i < |v|
    ensures Sum(v[i := v[i] + x]) == Sum(v) + x
  {
    var w := v[i := v[i] + x];
    if i == |v| - 1 {
      assert w[..|v| - 1] == v[..|v| - 1];
    } else {
      SumUpdate(v[..|v| - 1], i, x);
      assert w[..|v| - 1] == v[..|v| - 1][i := v[i] + x];
    }
  }

  // What the rows know about the history: every aligned window past the watermark is counted
  // exactly, and a fully classified one also carries the exact notional of each side.
  ghost predicate Knows(rows: seq<Second>, retained: int, h: seq<Trade>) {
    forall a, b :: Aligned(a, b) && a >= retained ==> KnowsWindow(rows, h, a, b)
  }

  ghost predicate KnowsWindow(rows: seq<Second>, h: seq<Trade>, a: int, b: int) {
    && RowsCount(rows, a, b) == CountIn(h, a, b)
    && RowsClassified(rows, a, b) <= RowsCount(rows, a, b)
    && (RowsClassified(rows, a, b) == RowsCount(rows, a, b) ==>
          && RowsNotional(rows, true, a, b) == NotionalIn(h, true, a, b)
          && RowsNotional(rows, false, a, b) == NotionalIn(h, false, a, b))
  }

  // The current row with one more print in it.
  function Printed(r: Second, t: Trade, bucket: Option<nat>): Second
    requires |r.buy| == |r.sell| == BUCKETS && (bucket.Some? ==> bucket.value < BUCKETS)
  {
    var counted := r.(count := r.count + 1, receipt := if r.receipt >= t.receipt then r.receipt else t.receipt);
    if bucket.None? then counted
    else
      var i := bucket.value;
      if t.buy then counted.(classified := r.classified + 1, buy := r.buy[i := r.buy[i] + t.Notional()])
      else counted.(classified := r.classified + 1, sell := r.sell[i := r.sell[i] + t.Notional()])
  }

  lemma PrintedKnows(rows: seq<Second>, h: seq<Trade>, r: Second, t: Trade, bucket: Option<nat>, a: int, b: int)
    requires |r.buy| == |r.sell| == BUCKETS && (bucket.Some? ==> bucket.value < BUCKETS)
    requires r.start == SecondOf(t.event) && Aligned(a, b)
    requires KnowsWindow(rows + [r], h, a, b)
    ensures KnowsWindow(rows + [Printed(r, t, bucket)], h + [t], a, b)
  {
    var p := Printed(r, t, bucket);
    AlignedWindow(t.event, a, b);
    RowsSnoc(rows, r, true, a, b);
    RowsSnoc(rows, r, false, a, b);
    RowsSnoc(rows, p, true, a, b);
    RowsSnoc(rows, p, false, a, b);
    HistorySnoc(h, t, true, a, b);
    HistorySnoc(h, t, false, a, b);
    if bucket.Some? {
      SumUpdate(Amounts(r, t.buy), bucket.value, t.Notional());
    }
  }

  // ---------------------------------------------------------------- rotations

  // A rotation's path is at least its displacement, and its delta is within its notional.
  predicate RotationOk(r: Rotation) {
    && r.path >= 0.0 && Abs(r.last - r.first) <= r.path
    && r.notional >= 0.0 && Abs(r.delta) <= r.notional
  }

  function Turn(r: Rotation, t: Trade): Rotation {
    r.(count := r.count + 1, notional := r.notional + t.Notional(),
       delta := r.delta + (if t.buy then t.Notional() else -t.Notional()),
       path := r.path + Abs(t.price - r.last), last := t.price)
  }

  lemma TurnOk(r: Rotation, t: Trade)
    requires RotationOk(r) && t.Notional() > 0.0
    ensures RotationOk(Turn(r, t))
  {
  }

  // A rotation that has not yet counted its opening print.
  function Begun(t: Trade, threshold: real): Rotation {
    Rotation(t.event, threshold, t.price, t.price, 0, 0.0, 0.0, 0.0)
  }

  // The rotation over a run of prints.
  function Over(prints: seq<Trade>, threshold: real): Rotation
    requires prints != []
  {
    var last := prints[|prints| - 1];
    Turn(if |prints| == 1 then Begun(last, threshold) else Over(prints[..|prints| - 1], threshold), last)
  }

  // What the prints of a run traded on one side, and how far their prices moved.
  function Traded(prints: seq<Trade>, buy: bool): real {
    if prints == [] then 0.0
    else
      var t := prints[|prints| - 1];
      Traded(prints[..|prints| - 1], buy) + if t.buy == buy then t.Notional() else 0.0
  }

  function Moved(prints: seq<Trade>): real {
    if |prints| <= 1 then 0.0
    else
      var a, b := prints[|prints| - 2].price, prints[|prints| - 1].price;
      Moved(prints[..|prints| - 1]) + if a <= b then b - a else a - b
  }

  /** The rotation over a run: its prints, what both sides traded, by how much buying exceeds selling, the
      distance the price went, and where it began and ended. */
  lemma {:induction false} OverIs(prints: seq<Trade>, threshold: real)
    requires prints != []
    ensures var r, last := Over(prints, threshold), |prints| - 1;
            && r.threshold == threshold && r.count == |prints|
            && r.start == prints[0].event && r.first == prints[0].price && r.last == prints[last].price
            && r.notional == Traded(prints, true) + Traded(prints, false)
            && r.delta == Traded(prints, true) - Traded(prints, false)
            && r.path == Moved(prints)
  {
    if |prints| > 1 {
      OverIs(prints[..|prints| - 1], threshold);
    } else {
      assert Traded(prints[..0], true) == Traded(prints[..0], false) == 0.0;
    }
  }

  // A run of the history that a rotation covers.
  datatype Span = Span(from: nat, to: nat)

  // The rotation over the span, which had not reached its threshold before the span's last print.
  ghost predicate Covers(h: seq<Trade>, s: Span, r: Rotation) {
    && s.from < s.to <= |h| && r == Over(h[s.from..s.to], r.threshold)
    && forall k :: s.from < k < s.to ==> Over(h[s.from..k], r.threshold).notional < r.threshold
  }

  // Closed rotations cover back-to-back runs of the history, each up to the print that reached its
  // threshold, and the open rotation covers everything since; n prints have been taken into account.
  ghost predicate Clock(h: seq<Trade>, n: nat, spans: seq<Span>, closed: seq<Closed>, current: Option<Rotation>, since: nat) {
    && n <= |h| && since <= n && Tiled(h, spans, closed, since)
    && (current.Some? ==> Covers(h, Span(since, n), current.value) && current.value.notional < current.value.threshold)
    && (current.None? && spans != [] ==> since == n)
  }

  // The closed rotations: back to back, the last one up to `since`.
  ghost predicate Tiled(h: seq<Trade>, spans: seq<Span>, closed: seq<Closed>, since: nat)
    decreases |closed|
  {
    if closed == [] then spans == []
    else
      var last := |closed| - 1;
      && |spans| == |closed| && spans[last].to == since
      && Covers(h, spans[last], closed[last].rotation) && closed[last].rotation.notional >= closed[last].rotation.threshold
      && Tiled(h, spans[..last], closed[..last], spans[last].from)
  }

  lemma CoversMore(h: seq<Trade>, t: Trade, s: Span, r: Rotation)
    requires Covers(h, s, r)
    ensures Covers(h + [t], s, r)
  {
    assert (h + [t])[s.from..s.to] == h[s.from..s.to];
    forall k | s.from < k < s.to
      ensures Over((h + [t])[s.from..k], r.threshold).notional < r.threshold
    {
      assert (h + [t])[s.from..k] == h[s.from..k];
    }
  }

  lemma {:induction false} TiledWaits(h: seq<Trade>, t: Trade, spans: seq<Span>, closed: seq<Closed>, since: nat)
    requires Tiled(h, spans, closed, since)
    ensures Tiled(h + [t], spans, closed, since)
    decreases |closed|
  {
    if closed != [] {
      var last := |closed| - 1;
      CoversMore(h, t, spans[last], closed[last].rotation);
      TiledWaits(h, t, spans[..last], closed[..last], spans[last].from);
    }
  }

  // A new print leaves what was taken into account as it was.
  lemma ClockWaits(h: seq<Trade>, t: Trade, n: nat, spans: seq<Span>, closed: seq<Closed>, current: Option<Rotation>, since: nat)
    requires Clock(h, n, spans, closed, current, since)
    ensures Clock(h + [t], n, spans, closed, current, since)
  {
    TiledWaits(h, t, spans, closed, since);
    if current.Some? {
      CoversMore(h, t, Span(since, n), current.value);
    }
  }

  lemma OverFurther(h: seq<Trade>, since: nat, n: nat, r: Rotation)
    requires n < |h| && since <= n
    requires r == if since == n then Begun(h[n], r.threshold) else Over(h[since..n], r.threshold)
    ensures Turn(r, h[n]) == Over(h[since..n + 1], r.threshold)
  {
    var prints := h[since..n + 1];
    assert prints[|prints| - 1] == h[n] && prints[..|prints| - 1] == h[since..n];
  }

  // One more print in the open rotation.
  lemma TurnCovers(h: seq<Trade>, since: nat, n: nat, r: Rotation)
    requires n < |h| && since <= n
    requires if since == n then r == Begun(h[n], r.threshold)
             else Covers(h, Span(since, n), r) && r.notional < r.threshold
    ensures Covers(h, Span(since, n + 1), Turn(r, h[n]))
  {
    OverFurther(h, since, n, r);
    forall k | since < k < n + 1
      ensures Over(h[since..k], r.threshold).notional < r.threshold
    {
      if k == n {
        assert r == Over(h[since..k], r.threshold);
      }
    }
  }

  // The rotation the next print falls into: the open one, or a new one.
  ghost predicate Falls(h: seq<Trade>, n: nat, current: Option<Rotation>, since: nat, r: Rotation, from: nat)
    requires n < |h|
  {
    if current.Some? then r == current.value && from == since else r == Begun(h[n], r.threshold) && from == n
  }

  lemma ClockTurns(h: seq<Trade>, n: nat, spans: seq<Span>, closed: seq<Closed>, current: Option<Rotation>, since: nat,
                   r: Rotation, from: nat)
    requires n < |h| && Clock(h, n, spans, closed, current, since) && Falls(h, n, current, since, r, from)
    requires Turn(r, h[n]).notional < r.threshold
    ensures Clock(h, n + 1, spans, closed, Some(Turn(r, h[n])), from)
  {
    TurnCovers(h, from, n, r);
  }

  lemma TiledMore(h: seq<Trade>, spans: seq<Span>, closed: seq<Closed>, from: nat, to: nat, c: Closed)
    requires Tiled(h, spans, closed, from)
    requires Covers(h, Span(from, to), c.rotation) && c.rotation.notional >= c.rotation.threshold
    ensures Tiled(h, spans + [Span(from, to)], closed + [c], to)
  {
    assert (spans + [Span(from, to)])[..|closed|] == spans && (closed + [c])[..|closed|] == closed;
  }

  lemma {:induction false} TiledFewer(h: seq<Trade>, spans: seq<Span>, closed: seq<Closed>, since: nat)
    requires Tiled(h, spans, closed, since) && closed != []
    ensures Tiled(h, spans[1..], closed[1..], since)
    decreases |closed|
  {
    if |closed| > 1 {
      var last := |closed| - 1;
      TiledFewer(h, spans[..last], closed[..last], spans[last].from);
      assert spans[1..][..last - 1] == spans[..last][1..] && closed[1..][..last - 1] == closed[..last][1..];
    }
  }

  lemma TiledAppend(h: seq<Trade>, spans: seq<Span>, closed: seq<Closed>, from: nat, to: nat, c: Closed)
    requires Tiled(h, spans, closed, from) && |closed| <= ROTATIONS
    requires Covers(h, Span(from, to), c.rotation) && c.rotation.notional >= c.rotation.threshold
    ensures Tiled(h, Append(spans, Span(from, to), ROTATIONS), Append(closed, c, ROTATIONS), to)
  {
    if |closed| == ROTATIONS {
      TiledFewer(h, spans, closed, from);
      TiledMore(h, spans[1..], closed[1..], from, to, c);
    } else {
      TiledMore(h, spans, closed, from, to, c);
    }
  }

  lemma ClockCloses(h: seq<Trade>, n: nat, spans: seq<Span>, closed: seq<Closed>, current: Option<Rotation>, since: nat,
                    r: Rotation, from: nat, c: Closed)
    requires n < |h| && |closed| <= ROTATIONS
    requires Clock(h, n, spans, closed, current, since) && Falls(h, n, current, since, r, from)
    requires c.rotation == Turn(r, h[n]) && c.rotation.notional >= r.threshold
    ensures Clock(h, n + 1, Append(spans, Span(from, n + 1), ROTATIONS), Append(closed, c, ROTATIONS), None, n + 1)
  {
    TurnCovers(h, from, n, r);
    TiledAppend(h, spans, closed, from, n + 1, c);
  }

  function Efficiency(r: Rotation): (e: real)
    requires RotationOk(r)
    ensures 0.0 <= e <= 1.0
  {
    var floor := Max(r.path, 0.000000000001);
    QuotientWithinOne(Abs(r.last - r.first), floor);
    Abs(r.last - r.first) / floor
  }

  /** The efficiency is the displacement's share of the path, a path of nothing counting as 1e-12. */
  lemma EfficiencyMeans(r: Rotation)
    requires RotationOk(r)
    ensures Efficiency(r) * (if r.path >= 0.000000000001 then r.path else 0.000000000001) ==
            if r.last >= r.first then r.last - r.first else r.first - r.last
  {
  }

  // The rotations kept, and the open one.
  predicate RotationsOk(rotations: seq<Closed>, current: Option<Rotation>) {
    && |rotations| <= ROTATIONS
    && (current.Some? ==> RotationOk(current.value))
    && (forall i :: 0 <= i < |rotations| ==>
          RotationOk(rotations[i].rotation) && rotations[i].efficiency == Efficiency(rotations[i].rotation))
  }

  lemma QuotientWithinOne(x: real, y: real)
    requires 0.0 <= x <= y && y > 0.0
    ensures 0.0 <= x / y <= 1.0
  {
  }

  // The activity clock: the open rotation, the closed ones, and the runs of prints they cover.
  datatype Wheel = Wheel(current: Option<Rotation>, rotations: seq<Closed>, spans: seq<Span>, since: nat)

  ghost predicate WheelOk(h: seq<Trade>, n: nat, w: Wheel, started: bool) {
    && Clock(h, n, w.spans, w.rotations, w.current, w.since)
    && RotationsOk(w.rotations, w.current)
    && (!started ==> w.current.None? && w.spans == [])
  }

  // The clock after the print numbered n; the threshold is known once there are quantiles.
  function Spin(w: Wheel, n: nat, threshold: Option<real>, t: Trade): Wheel
    requires t.Notional() > 0.0 && RotationsOk(w.rotations, w.current) && |w.spans| == |w.rotations|
  {
    if w.current.None? && threshold.None? then w
    else
      var r := if w.current.Some? then w.current.value else Begun(t, threshold.value);
      var from := if w.current.Some? then w.since else n;
      TurnOk(r, t);
      var turned := Turn(r, t);
      if turned.notional >= r.threshold
      then Wheel(None, Append(w.rotations, Closed(turned, t.event, t.receipt, Efficiency(turned)), ROTATIONS),
                 Append(w.spans, Span(from, n + 1), ROTATIONS), n + 1)
      else Wheel(Some(turned), w.rotations, w.spans, from)
  }

  lemma SpinKeepsRotations(w: Wheel, n: nat, threshold: Option<real>, t: Trade)
    requires t.Notional() > 0.0 && RotationsOk(w.rotations, w.current) && |w.spans| == |w.rotations|
    ensures var u := Spin(w, n, threshold, t); RotationsOk(u.rotations, u.current)
  {
    if w.current.Some? || threshold.Some? {
      TurnOk(if w.current.Some? then w.current.value else Begun(t, threshold.value), t);
    }
  }

  lemma SpinKeepsClock(h: seq<Trade>, n: nat, w: Wheel, threshold: Option<real>, t: Trade)
    requires n + 1 == |h| && h[n] == t && t.Notional() > 0.0 && RotationsOk(w.rotations, w.current)
    requires Clock(h, n, w.spans, w.rotations, w.current, w.since) && (threshold.None? ==> w.current.None? && w.spans == [])
    ensures var u := Spin(w, n, threshold, t);
            && Clock(h, n + 1, u.spans, u.rotations, u.current, u.since)
            && (threshold.None? ==> u.current.None? && u.spans == [])
  {
    if w.current.Some? || threshold.Some? {
      var r := if w.current.Some? then w.current.value else Begun(t, threshold.value);
      var from := if w.current.Some? then w.since else n;
      TurnOk(r, t);
      var turned := Turn(r, t);
      if turned.notional >= r.threshold {
        ClockCloses(h, n, w.spans, w.rotations, w.current, w.since, r, from,
                    Closed(turned, t.event, t.receipt, Efficiency(turned)));
      } else {
        ClockTurns(h, n, w.spans, w.rotations, w.current, w.since, r, from);
      }
    }
  }

  /** Every print advances the clock without losing or repeating a print. */
  lemma SpinKeeps(h: seq<Trade>, n: nat, w: Wheel, threshold: Option<real>, t: Trade)
    requires n + 1 == |h| && h[n] == t && t.Notional() > 0.0 && WheelOk(h, n, w, threshold.Some?)
    ensures WheelOk(h, n + 1, Spin(w, n, threshold, t), threshold.Some?)
  {
    SpinKeepsRotations(w, n, threshold, t);
    SpinKeepsClock(h, n, w, threshold, t);
  }

  // The clock over a history with one more print.
  lemma WheelTurns(h: seq<Trade>, w: Wheel, threshold: Option<real>, t: Trade)
    requires t.Notional() > 0.0 && WheelOk(h, |h|, w, threshold.Some?)
    ensures |w.spans| == |w.rotations| && RotationsOk(w.rotations, w.current)
    ensures WheelOk(h + [t], |h| + 1, Spin(w, |h|, threshold, t), threshold.Some?)
  {
    ClockWaits(h, t, |h|, w.spans, w.rotations, w.current, w.since);
    SpinKeeps(h + [t], |h|, w, threshold, t);
  }

  // ---------------------------------------------------------------- the running object

  function BucketOf(notional: real, quantiles: seq<real>): (i: nat)
    ensures i <= |quantiles|
  {
    if quantiles == [] then 0
    else BucketOf(notional, quantiles[..|quantiles| - 1]) + (if notional > quantiles[|quantiles| - 1] then 1 else 0)
  }

  predicate Ascending(quantiles: seq<real>) {
    forall i, j :: 0 <= i < j < |quantiles| ==> quantiles[i] <= quantiles[j]
  }

  /** A print's bucket: every lower quantile is below its notional, and no higher one is. */
  lemma {:induction false} BucketIs(notional: real, quantiles: seq<real>)
    requires Ascending(quantiles)
    ensures forall i :: 0 <= i < |quantiles| ==> (i < BucketOf(notional, quantiles) <==> quantiles[i] < notional)
  {
    if quantiles != [] {
      BucketIs(notional, quantiles[..|quantiles| - 1]);
    }
  }

  // The row of a print's second: the last one, or a new one.
  function RowFor(seconds: seq<Second>, t: Trade): Second {
    if seconds != [] && seconds[|seconds| - 1].start == SecondOf(t.event) then seconds[|seconds| - 1]
    else Second(SecondOf(t.event), t.receipt, 0, 0, ZEROS, ZEROS)
  }

  // The bucket of a print, once there are quantiles.
  function Classified(t: Trade, quantiles: Option<seq<real>>): (b: Option<nat>)
    requires quantiles.Some? ==> |quantiles.value| == BUCKETS - 1
    ensures b.Some? ==> b.value < BUCKETS
  {
    if quantiles.None? then None else Some(BucketOf(t.Notional(), quantiles.value))
  }

  // The last row is that of a print, counted and classified.
  predicate Counted(before: seq<Second>, after: seq<Second>, t: Trade, quantiles: Option<seq<real>>) {
    && (quantiles.Some? ==> |quantiles.value| == BUCKETS - 1)
    && |RowFor(before, t).buy| == |RowFor(before, t).sell| == BUCKETS
    && after != [] && after[|after| - 1] == Printed(RowFor(before, t), t, Classified(t, quantiles))
  }

  /** A classified print adds its notional to one bucket of its own side, the one between the quantiles below it
      and those that are not; every other amount stays. */
  lemma PrintEntersItsBucket(r: Second, t: Trade, quantiles: seq<real>, i: nat)
    requires |r.buy| == |r.sell| == BUCKETS && |quantiles| == BUCKETS - 1 && Ascending(quantiles) && i < BUCKETS
    ensures var p := Printed(r, t, Classified(t, Some(quantiles)));
            var mine := (forall j :: 0 <= j < i ==> quantiles[j] < t.Notional())
                        && (forall j :: i <= j < BUCKETS - 1 ==> t.Notional() <= quantiles[j]);
            && p.count == r.count + 1 && p.classified == r.classified + 1
            && p.buy[i] == (if t.buy && mine then r.buy[i] + t.Notional() else r.buy[i])
            && p.sell[i] == (if !t.buy && mine then r.sell[i] + t.Notional() else r.sell[i])
  {
    BucketIs(t.Notional(), quantiles);
    var k := BucketOf(t.Notional(), quantiles);
    if i < k {
      assert quantiles[i] < t.Notional();
    } else if k < i {
      assert quantiles[k] >= t.Notional();
    }
  }

  // 32 prints of median size.
  function Threshold(quantiles: Option<seq<real>>): Option<real>
    requires quantiles.Some? ==> quantiles.value != []
  {
    if quantiles.None? then None else Some(quantiles.value[0] * 32.0)
  }

  function Append<T>(d: seq<T>, x: T, capacity: nat): (r: seq<T>)
    requires |d| <= capacity && capacity > 0
    ensures |r| <= capacity
  {
    if |d| == capacity then d[1..] + [x] else d + [x]
  }

  const ZEROS: seq<real> := [0.0, 0.0, 0.0, 0.0, 0.0]

  lemma {:induction false} SumOfZeros(v: seq<real>)
    requires forall i :: 0 <= i < |v| ==> v[i] == 0.0
    ensures Sum(v) == 0.0
  {
    if v != [] {
      SumOfZeros(v[..|v| - 1]);
    }
  }

  predicate RowsShaped(rows: seq<Second>, retained: int) {
    && (forall i :: 0 <= i < |rows| ==> |rows[i].buy| == |rows[i].sell| == BUCKETS)
    && (forall i :: 0 <= i < |rows| ==> rows[i].start % 1000 == 0 && rows[i].start >= retained)
    && (forall i, j :: 0 <= i < j < |rows| ==> rows[i].start < rows[j].start)
  }

  // Opening a new second evicts the oldest one, and the watermark moves past it.
  lemma OpenedKnows(rows: seq<Second>, retained: int, h: seq<Trade>, r: Second, evict: bool)
    requires RowsShaped(rows, retained) && Knows(rows, retained, h)
    requires r.count == r.classified == 0 && r.buy == r.sell == ZEROS
    requires evict ==> rows != []
    ensures Knows((if evict then rows[1..] else rows) + [r], if evict then rows[0].start + 1000 else retained, h)
  {
    var kept := if evict then rows[1..] else rows;
    SumOfZeros(ZEROS);
    forall a, b | Aligned(a, b) && a >= if evict then rows[0].start + 1000 else retained
      ensures KnowsWindow(kept + [r], h, a, b)
    {
      assert KnowsWindow(rows, h, a, b);
      if evict {
        RowsEvict(rows, true, a, b);
        RowsEvict(rows, false, a, b);
      }
      RowsSnoc(kept, r, true, a, b);
      RowsSnoc(kept, r, false, a, b);
    }
  }

  lemma ShapedFewer(rows: seq<Second>, retained: int)
    requires RowsShaped(rows, retained) && rows != []
    ensures RowsShaped(rows[1..], rows[0].start + 1000)
  {
    forall i | 0 <= i < |rows| - 1 ensures rows[1..][i].start >= rows[0].start + 1000 {
      assert rows[0].start < rows[i + 1].start && rows[0].start % 1000 == 0 && rows[i + 1].start % 1000 == 0;
    }
  }

  lemma ShapedMore(rows: seq<Second>, retained: int, r: Second)
    requires RowsShaped(rows, retained) && r.start % 1000 == 0 && retained <= r.start && |r.buy| == |r.sell| == BUCKETS
    requires forall i :: 0 <= i < |rows| ==> rows[i].start < r.start
    ensures RowsShaped(rows + [r], retained)
  {
  }

  lemma OpenedShaped(rows: seq<Second>, retained: int, r: Second, evict: bool)
    requires RowsShaped(rows, retained) && r.start % 1000 == 0 && retained <= r.start
    requires |r.buy| == |r.sell| == BUCKETS
    requires forall i :: 0 <= i < |rows| ==> rows[i].start < r.start
    requires evict ==> rows != []
    ensures var watermark := if evict then rows[0].start + 1000 else retained;
            RowsShaped((if evict then rows[1..] else rows) + [r], watermark) && watermark <= r.start
  {
    if evict {
      ShapedFewer(rows, retained);
      assert rows[0].start < r.start && rows[0].start % 1000 == 0;
      ShapedMore(rows[1..], rows[0].start + 1000, r);
    } else {
      ShapedMore(rows, retained, r);
    }
  }

  // Everything the retained rows satisfy up to a second.
  ghost predicate RowsOk(rows: seq<Second>, retained: int, h: seq<Trade>, second: int) {
    && |rows| <= SECONDS
    && RowsShaped(rows, retained) && retained % 1000 == 0 && retained <= second
    && (forall i :: 0 <= i < |rows| ==> rows[i].start <= second)
    && Knows(rows, retained, h)
  }

  function Watermark(rows: seq<Second>, retained: int): int {
    if |rows| == SECONDS then rows[0].start + 1000 else retained
  }

  lemma OpenedOk(rows: seq<Second>, retained: int, h: seq<Trade>, second: int, r: Second)
    requires RowsOk(rows, retained, h, second) && second <= r.start && r.start % 1000 == 0
    requires rows == [] || rows[|rows| - 1].start != r.start
    requires r.count == r.classified == 0 && r.buy == r.sell == ZEROS
    ensures RowsOk(Append(rows, r, SECONDS), Watermark(rows, retained), h, r.start)
  {
    assert forall i :: 0 <= i < |rows| ==> rows[i].start < r.start;
    OpenedKnows(rows, retained, h, r, |rows| == SECONDS);
    OpenedShaped(rows, retained, r, |rows| == SECONDS);
    var kept := (if |rows| == SECONDS then rows[1..] else rows) + [r];
    assert Append(rows, r, SECONDS) == kept;
    assert forall i :: 0 <= i < |kept| ==> kept[i].start <= r.start;
  }

  datatype Window = Window(covered: bool, ready: bool, count: nat, classified: nat, buy: seq<real>, sell: seq<real>)

  function Pairwise(v: seq<real>, w: seq<real>): (s: seq<real>)
    requires |v| == |w|
    ensures |s| == |v|
  {
    seq(|v|, i requires 0 <= i < |v| => v[i] + w[i])
  }

  lemma {:induction false} SumOfPairs(v: seq<real>, w: seq<real>)
    requires |v| == |w|
    ensures Sum(Pairwise(v, w)) == Sum(v) + Sum(w)
  {
    if v != [] {
      SumOfPairs(v[..|v| - 1], w[..|w| - 1]);
      assert Pairwise(v, w)[..|v| - 1] == Pairwise(v[..|v| - 1], w[..|w| - 1]);
    }
  }

  // The totals of the rows in a range.
  ghost predicate Tally(rows: seq<Second>, a: int, b: int, count: nat, classified: nat, buy: seq<real>, sell: seq<real>) {
    && count == RowsCount(rows, a, b) && classified == RowsClassified(rows, a, b)
    && Sum(buy) == RowsNotional(rows, true, a, b) && Sum(sell) == RowsNotional(rows, false, a, b)
  }

  lemma TallyMore(rows: seq<Second>, r: Second, a: int, b: int, count: nat, classified: nat, buy: seq<real>, sell: seq<real>)
    requires |buy| == |r.buy| && |sell| == |r.sell| && Tally(rows, a, b, count, classified, buy, sell)
    ensures if InRange(r, a, b)
            then Tally(rows + [r], a, b, count + r.count, classified + r.classified, Pairwise(buy, r.buy), Pairwise(sell, r.sell))
            else Tally(rows + [r], a, b, count, classified, buy, sell)
  {
    RowsSnoc(rows, r, true, a, b);
    RowsSnoc(rows, r, false, a, b);
    SumOfPairs(buy, r.buy);
    SumOfPairs(sell, r.sell);
  }

  class Features {
    const source: string
    const symbol: string
    var sizes: seq<real>
    var seconds: seq<Second>
    var rotations: seq<Closed>
    var quantiles: Option<seq<real>>
    var updates: nat
    var current: Option<Rotation>
    var lastEvent: int
    var retained: int
    ghost var history: seq<Trade>
    ghost var spans: seq<Span>
    ghost var since: nat

    constructor (source: string, symbol: string)
      ensures Valid() && history == [] && lastEvent == 0
      ensures this.source == source && this.symbol == symbol
    {
      this.source, this.symbol := source, symbol;
      sizes, seconds, rotations := [], [], [];
      quantiles, updates, current := None, 0, None;
      lastEvent, retained, history := 0, 0, [];
      spans, since := [], 0;
    }

    // The invariant while a print of this event time is being added.
    ghost predicate ValidAt(event: int)
      reads this
    {
      && |sizes| <= BASELINE
      && (quantiles.Some? ==> |quantiles.value| == BUCKETS - 1)
      && RowsOk(seconds, retained, history, SecondOf(event))
    }

    ghost function Activity(): Wheel
      reads this
    {
      Wheel(current, rotations, spans, since)
    }

    ghost predicate Valid()
      reads this
    {
      ValidAt(lastEvent) && WheelOk(history, |history|, Activity(), quantiles.Some?)
    }

    // The row of the print's second, since if need be.
    method OpenSecond(t: Trade)
      requires ValidAt(lastEvent) && t.event >= lastEvent
      modifies this`seconds, this`retained
      ensures ValidAt(t.event)
      ensures seconds != [] && seconds[|seconds| - 1] == RowFor(old(seconds), t)
    {
      var start := SecondOf(t.event);
      if seconds == [] || seconds[|seconds| - 1].start != start {
        var r := Second(start, t.receipt, 0, 0, ZEROS, ZEROS);
        OpenedOk(seconds, retained, history, SecondOf(lastEvent), r);
        retained := Watermark(seconds, retained);
        seconds := Append(seconds, r, SECONDS);
      }
    }

    // Count the print in its second and classify it by size.
    method Record(t: Trade, bucket: Option<nat>)
      requires ValidAt(t.event) && seconds != [] && seconds[|seconds| - 1].start == SecondOf(t.event)
      requires bucket.Some? ==> bucket.value < BUCKETS
      modifies this`seconds, this`history
      ensures ValidAt(t.event) && history == old(history) + [t]
      ensures seconds != [] && |old(seconds)[|old(seconds)| - 1].buy| == |old(seconds)[|old(seconds)| - 1].sell| == BUCKETS
      ensures seconds[|seconds| - 1] == Printed(old(seconds)[|old(seconds)| - 1], t, bucket)
    {
      var front, r := seconds[..|seconds| - 1], seconds[|seconds| - 1];
      assert seconds == front + [r];
      forall a, b | Aligned(a, b) && a >= retained
        ensures KnowsWindow(front + [Printed(r, t, bucket)], history + [t], a, b)
      {
        assert KnowsWindow(seconds, history, a, b);
        PrintedKnows(front, history, r, t, bucket, a, b);
      }
      seconds := front + [Printed(r, t, bucket)];
      history := history + [t];
    }

    // Advance the activity clock: open, extend and close a rotation.
    method Rotate(t: Trade, ghost n: nat)
      requires t.Notional() > 0.0 && RotationsOk(rotations, current) && |spans| == |rotations|
      requires quantiles.Some? ==> |quantiles.value| == BUCKETS - 1
      modifies this`current, this`rotations, this`spans, this`since
      ensures Activity() == Spin(old(Activity()), n, Threshold(quantiles), t)
    {
      if current.None? && quantiles.None? {
        return;
      }
      ghost var from := if current.Some? then since else n;
      var r := if current.Some? then current.value else Begun(t, Threshold(quantiles).value);
      TurnOk(r, t);
      var turned := Turn(r, t);
      if turned.notional >= r.threshold {
        rotations := Append(rotations, Closed(turned, t.event, t.receipt, Efficiency(turned)), ROTATIONS);
        spans := Append(spans, Span(from, n + 1), ROTATIONS);
        current, since := None, n + 1;
      } else {
        current, since := Some(turned), from;
      }
    }

    // The print in its second.
    method Count(t: Trade)
      requires ValidAt(lastEvent) && t.event >= lastEvent
      modifies this`seconds, this`retained, this`history
      ensures ValidAt(t.event) && history == old(history) + [t]
      ensures Counted(old(seconds), seconds, t, quantiles)
    {
      OpenSecond(t);
      Record(t, Classified(t, quantiles));
    }

    // And in the activity clock.
    method Absorb(t: Trade)
      requires ValidAt(lastEvent) && WheelOk(history, |history|, Activity(), quantiles.Some?)
      requires t.event >= lastEvent && t.Notional() > 0.0
      modifies this`seconds, this`retained, this`history, this`current, this`rotations, this`spans, this`since
      ensures ValidAt(t.event) && history == old(history) + [t]
      ensures WheelOk(history, |history|, Activity(), quantiles.Some?)
      ensures Counted(old(seconds), seconds, t, quantiles)
    {
      ghost var n := |history|;
      WheelTurns(history, Activity(), Threshold(quantiles), t);
      Count(t);
      Rotate(t, n);
    }

    // The print enters the baseline only after its classification and threshold.
    method Settle(t: Trade)
      requires ValidAt(t.event) && WheelOk(history, |history|, Activity(), quantiles.Some?)
      modifies this`sizes, this`updates, this`lastEvent
      ensures Valid() && lastEvent == t.event
      ensures sizes == Append(old(sizes), t.Notional(), BASELINE)
    {
      sizes := Append(sizes, t.Notional(), BASELINE);
      updates := updates + 1;
      lastEvent := t.event;
    }

    // The size quantiles, every 64 prints once there are 64 sizes.
    method Refresh(refreshed: seq<real>)
      requires Valid() && |refreshed| == BUCKETS - 1
      modifies this`quantiles
      ensures Valid()
      ensures quantiles == if |sizes| >= 64 && updates % 64 == 0 then Some(refreshed) else old(quantiles)
    {
      if |sizes| >= 64 && updates % 64 == 0 {
        quantiles := Some(refreshed);
      }
    }

    /** add: a print of another tape, out of order or without notional is refused and changes
        nothing; every other print enters the history. `refreshed` are the refreshed size quantiles. */
    method Add(t: Trade, refreshed: seq<real>) returns (ok: bool)
      requires Valid() && |refreshed| == BUCKETS - 1
      modifies this
      ensures Valid()
      ensures ok <==> t.symbol == symbol && t.exchange == source && t.event >= old(lastEvent) && t.Notional() > 0.0
      ensures history == if ok then old(history) + [t] else old(history)
      ensures lastEvent == if ok then t.event else old(lastEvent)
      ensures sizes == if ok then Append(old(sizes), t.Notional(), BASELINE) else old(sizes)
      ensures quantiles == if ok && |old(sizes)| >= 64 && old(updates) % 64 == 0 then Some(refreshed) else old(quantiles)
      ensures if ok then Counted(old(seconds), seconds, t, quantiles) else seconds == old(seconds)
    {
      if t.symbol != symbol || t.exchange != source || t.event < lastEvent || t.Notional() <= 0.0 {
        return false;
      }
      Refresh(refreshed);
      Absorb(t);
      Settle(t);
      ok := true;
    }

    // The totals of the rows in a range that were received in time, and whether one came late.
    method Totals(start: int, end: int, available: int)
      returns (late: bool, found: bool, count: nat, classified: nat, buy: seq<real>, sell: seq<real>)
      requires RowsShaped(seconds, retained)
      ensures late <==> exists j :: 0 <= j < |seconds| && InRange(seconds[j], start, end) && seconds[j].receipt > available
      ensures |buy| == |sell| == BUCKETS && (count > 0 ==> found)
      ensures !late ==> Tally(seconds, start, end, count, classified, buy, sell)
    {
      count, classified := 0, 0;
      buy, sell, late, found := ZEROS, ZEROS, false, false;
      SumOfZeros(ZEROS);
      for i := 0 to |seconds|
        invariant late <==> exists j :: 0 <= j < i && InRange(seconds[j], start, end) && seconds[j].receipt > available
        invariant |buy| == |sell| == BUCKETS && (count > 0 ==> found)
        invariant !late ==> Tally(seconds[..i], start, end, count, classified, buy, sell)
      {
        var r := seconds[i];
        assert seconds[..i + 1] == seconds[..i] + [r];
        if !late {
          TallyMore(seconds[..i], r, start, end, count, classified, buy, sell);
        }
        if InRange(r, start, end) {
          if r.receipt > available {
            late := true;
          } else {
            found := true;
            count, classified := count + r.count, classified + r.classified;
            buy, sell := Pairwise(buy, r.buy), Pairwise(sell, r.sell);
          }
        }
      }
      assert seconds[..|seconds|] == seconds;
    }

    /** The size part of snapshot. When it reports complete coverage its count is the number of
        prints ever added in [start, end), evicted seconds included; when it is also fully
        classified, the bucket totals of each side sum to exactly that window's notional. */
    method Snapshot(start: int, end: int, available: int, coverage: bool) returns (w: Window)
      requires Valid()
      ensures w.covered <==>
                && coverage && end <= available && start >= retained && Aligned(start, end)
                && forall i :: 0 <= i < |seconds| && InRange(seconds[i], start, end) ==> seconds[i].receipt <= available
      ensures w.covered ==> w.count == CountIn(history, start, end)
      ensures w.ready <==> w.covered && w.count == w.classified > 0
      ensures w.ready ==> Sum(w.buy) == NotionalIn(history, true, start, end)
      ensures w.ready ==> Sum(w.sell) == NotionalIn(history, false, start, end)
    {
      var late, found, count, classified, buy, sell := Totals(start, end, available);
      var covered := coverage && !late && end <= available && start >= retained && Aligned(start, end);
      assert covered ==> KnowsWindow(seconds, history, start, end);
      w := Window(covered, covered && found && count == classified && classified >= 1, count, classified, buy, sell);
    }
  }
}
