// Structural events over closed candles: a breakout that is accepted and retested, and an excursion
// out of a range that is reclaimed. Every closed candle is a new prefix of the same stream, and each
// prefix is examined from scratch.
module Quality {
  import opened Common
  import opened Bars

  datatype Family = RangeRejection | BreakoutRetest | Other

  const REFERENCE := 20

  // How many of the last candles may anchor an event.
  function Window(f: Family): nat {
    if f.BreakoutRetest? then 6 else 4
  }

  function Signed(d: Direction, x: real): real {
    if d.Long? then x else -x
  }

  function Highest(bars: seq<Bar>): real
    requires bars != []
  {
    if |bars| == 1 then bars[0].high else Max(Highest(bars[..|bars| - 1]), bars[|bars| - 1].high)
  }

  function Lowest(bars: seq<Bar>): real
    requires bars != []
  {
    if |bars| == 1 then bars[0].low else Min(Lowest(bars[..|bars| - 1]), bars[|bars| - 1].low)
  }

  // The candles that freeze the level before an anchor.
  function Reference(closed: seq<Bar>, anchor: nat): (r: seq<Bar>)
    requires REFERENCE <= anchor <= |closed|
    ensures r != []
  {
    closed[anchor - REFERENCE..anchor]
  }

  // The side of the reference that the event is about.
  function Level(f: Family, d: Direction, reference: seq<Bar>): real
    requires reference != []
  {
    if f.BreakoutRetest? == d.Long? then Highest(reference) else Lowest(reference)
  }

  // ---------------------------------------------------------------- a range left and reclaimed

  // A close strictly past the level in the direction of the trade (back inside a range, beyond a
  // breakout level), and one strictly behind it.
  predicate Past(d: Direction, level: real, b: Bar) {
    Signed(d, b.close - level) > 0.0
  }

  predicate Behind(d: Direction, level: real, b: Bar) {
    Signed(d, b.close - level) < 0.0
  }

  predicate Leaves(d: Direction, level: real, b: Bar) {
    if d.Long? then b.low < level else b.high > level
  }

  // The first candle that closes back inside.
  function Reclaim(d: Direction, level: real, event: seq<Bar>): (r: Option<nat>)
    ensures r.Some? ==> r.value < |event|
  {
    if event == [] then None
    else
      var earlier := Reclaim(d, level, event[..|event| - 1]);
      if earlier.Some? then earlier else if Past(d, level, event[|event| - 1]) then Some(|event| - 1) else None
  }

  predicate TwoBehind(d: Direction, level: real, bars: seq<Bar>) {
    exists i :: 0 <= i < |bars| - 1 && Behind(d, level, bars[i]) && Behind(d, level, bars[i + 1])
  }

  datatype State =
    | AcceptedOutside | Reclaimed | ReclaimPending | FailedReclaim
    | Accepting | FailedAcceptance | RetestHeld | RetestFailed | RetestExpired | RetestPending

  // What one anchor's event has come to. A state other than the two good ones is a reason against.
  datatype Finding = Finding(state: State, delay: nat, candidate: bool)
  {
    predicate Valid() {
      candidate && (state.Reclaimed? || state.RetestHeld?)
    }
  }

  function RangeEvent(d: Direction, level: real, before: seq<Bar>, event: seq<Bar>): Finding
    requires |before| == 2 && event != []
  {
    var reclaimed := Reclaim(d, level, event);
    var until := if reclaimed.Some? then event[..reclaimed.value] else event;
    var accepted := (Behind(d, level, before[0]) && Behind(d, level, before[1])) || TwoBehind(d, level, until);
    var completion := if reclaimed.Some? then reclaimed.value else |event| - 1;
    Finding(if accepted then AcceptedOutside else if reclaimed.Some? then Reclaimed
            else if |event| < 4 then ReclaimPending else FailedReclaim,
            completion, completion == |event| - 1)
  }

  // ---------------------------------------------------------------- a breakout and its retest

  predicate Touches(d: Direction, level: real, b: Bar) {
    if d.Long? then b.low <= level else b.high >= level
  }

  // The first candle that touches the level or closes back through it.
  function Retest(d: Direction, level: real, tail: seq<Bar>): (r: Option<nat>)
    ensures r.Some? ==> r.value < |tail|
  {
    if tail == [] then None
    else
      var earlier := Retest(d, level, tail[..|tail| - 1]);
      var last := tail[|tail| - 1];
      if earlier.Some? then earlier
      else if !Past(d, level, last) || Touches(d, level, last) then Some(|tail| - 1) else None
  }

  function BreakoutEvent(d: Direction, level: real, event: seq<Bar>): Option<Finding>
    requires event != []
  {
    if !Past(d, level, event[0]) then None
    else if |event| < 2 then Some(Finding(Accepting, 0, false))
    else if !Past(d, level, event[1]) then
      if |event| > 2 then None else Some(Finding(FailedAcceptance, 0, false))
    else
      var tail := event[2..];
      var retest := Retest(d, level, tail);
      if retest.Some? then
        Some(Finding(if Past(d, level, tail[retest.value]) then RetestHeld else RetestFailed,
                     retest.value + 1, tail[retest.value].End() == event[|event| - 1].End()))
      else Some(Finding(if |tail| >= 4 then RetestExpired else RetestPending, |tail|, |tail| == 4))
  }

  // ---------------------------------------------------------------- the scan over anchors

  function Examine(f: Family, d: Direction, closed: seq<Bar>, anchor: nat): Option<Finding>
    requires REFERENCE <= anchor < |closed|
  {
    var level := Level(f, d, Reference(closed, anchor));
    match f
    case Other => None
    case RangeRejection =>
      if Leaves(d, level, closed[anchor])
      then Some(RangeEvent(d, level, closed[anchor - 2..anchor], closed[anchor..])) else None
    case BreakoutRetest => BreakoutEvent(d, level, closed[anchor..])
  }

  function Earliest(f: Family, closed: seq<Bar>, after: Option<nat>): (r: nat)
    ensures r >= REFERENCE
  {
    var window := if |closed| - Window(f) > REFERENCE then |closed| - Window(f) else REFERENCE;
    if after.Some? && after.value + 1 > window then after.value + 1 else window
  }

  // The first anchor from `from` on that has an event.
  function Scan(f: Family, d: Direction, closed: seq<Bar>, from: nat): (r: Option<nat>)
    requires REFERENCE <= from
    ensures r.Some? ==> from <= r.value < |closed| && Examine(f, d, closed, r.value).Some?
    decreases |closed| - from
  {
    if from >= |closed| then None
    else if Examine(f, d, closed, from).Some? then Some(from) else Scan(f, d, closed, from + 1)
  }

  // What identifies an event: the digest is over exactly these parts.
  datatype EventId = EventId(family: Family, direction: Direction, interval: int, start: int, high: real, low: real)

  datatype Structure =
    | Insufficient
    | NoEvent
    | Event(anchor: nat, finding: Finding, level: real, id: EventId)

  function At(f: Family, d: Direction, closed: seq<Bar>, anchor: nat): Structure
    requires REFERENCE <= anchor < |closed| && Examine(f, d, closed, anchor).Some?
  {
    var reference := Reference(closed, anchor);
    Event(anchor, Examine(f, d, closed, anchor).value, Level(f, d, reference),
          EventId(f, d, closed[|closed| - 1].interval, closed[anchor].start, Highest(reference), Lowest(reference)))
  }

  function StructureOf(f: Family, d: Direction, closed: seq<Bar>, after: Option<nat>): Structure {
    if |closed| < 24 then Insufficient
    else
      var anchor := Scan(f, d, closed, Earliest(f, closed, after));
      if anchor.None? then NoEvent else At(f, d, closed, anchor.value)
  }

  /** The anchor loop, which stops at the first anchor with an event. */
  method Structural(f: Family, d: Direction, closed: seq<Bar>, after: Option<nat>) returns (r: Structure)
    ensures r == StructureOf(f, d, closed, after)
    ensures r.Event? ==> |closed| - Window(f) <= r.anchor
  {
    if |closed| < 24 {
      return Insufficient;
    }
    var start := Earliest(f, closed, after);
    while start < |closed|
      invariant Earliest(f, closed, after) <= start
      invariant Scan(f, d, closed, Earliest(f, closed, after)) == Scan(f, d, closed, start)
    {
      if Examine(f, d, closed, start).Some? {
        return At(f, d, closed, start);
      }
      start := start + 1;
    }
    return NoEvent;
  }

  // ---------------------------------------------------------------- the frozen level and the anchor

  // x is the largest high of the twenty candles before the anchor.
  predicate TopOf(closed: seq<Bar>, anchor: nat, x: real)
    requires 20 <= anchor <= |closed|
  {
    && (forall i :: anchor - 20 <= i < anchor ==> closed[i].high <= x)
    && (exists i :: anchor - 20 <= i < anchor && closed[i].high == x)
  }

  // And their smallest low.
  predicate BottomOf(closed: seq<Bar>, anchor: nat, x: real)
    requires 20 <= anchor <= |closed|
  {
    && (forall i :: anchor - 20 <= i < anchor ==> x <= closed[i].low)
    && (exists i :: anchor - 20 <= i < anchor && closed[i].low == x)
  }

  lemma {:induction false} HighestIs(bars: seq<Bar>) returns (k: nat)
    requires bars != []
    ensures k < |bars| && bars[k].high == Highest(bars)
    ensures forall i :: 0 <= i < |bars| ==> bars[i].high <= Highest(bars)
  {
    k := |bars| - 1;
    if |bars| > 1 {
      var h := HighestIs(bars[..|bars| - 1]);
      assert forall i :: 0 <= i < |bars| - 1 ==> bars[i] == bars[..|bars| - 1][i];
      if bars[k].high < bars[h].high {
        k := h;
      }
    }
  }

  lemma {:induction false} LowestIs(bars: seq<Bar>) returns (k: nat)
    requires bars != []
    ensures k < |bars| && bars[k].low == Lowest(bars)
    ensures forall i :: 0 <= i < |bars| ==> Lowest(bars) <= bars[i].low
  {
    k := |bars| - 1;
    if |bars| > 1 {
      var l := LowestIs(bars[..|bars| - 1]);
      assert forall i :: 0 <= i < |bars| - 1 ==> bars[i] == bars[..|bars| - 1][i];
      if bars[l].low < bars[k].low {
        k := l;
      }
    }
  }

  lemma ReferenceExtremes(closed: seq<Bar>, anchor: nat)
    requires REFERENCE <= anchor <= |closed|
    ensures TopOf(closed, anchor, Highest(Reference(closed, anchor)))
    ensures BottomOf(closed, anchor, Lowest(Reference(closed, anchor)))
  {
    var r := Reference(closed, anchor);
    var h := HighestIs(r);
    var l := LowestIs(r);
    assert forall i :: anchor - 20 <= i < anchor ==> closed[i] == r[i - (anchor - 20)];
    assert closed[anchor - 20 + h] == r[h] && closed[anchor - 20 + l] == r[l];
  }

  // An event above the reference: a long breakout, or a short rejection. The others are below it.
  predicate Above(f: Family, d: Direction) {
    (f.BreakoutRetest? && d.Long?) || (f.RangeRejection? && d.Short?)
  }

  // The level that the event of a family stands at.
  predicate FrozenAt(f: Family, d: Direction, closed: seq<Bar>, anchor: nat, level: real)
    requires 20 <= anchor <= |closed|
  {
    if Above(f, d) then TopOf(closed, anchor, level) else BottomOf(closed, anchor, level)
  }

  /** A structure freezes the extreme of the twenty candles before its anchor on the side of its event, and its
      id holds both extremes. */
  lemma LevelIsTheExtreme(f: Family, d: Direction, closed: seq<Bar>, after: Option<nat>)
    requires StructureOf(f, d, closed, after).Event?
    ensures var s := StructureOf(f, d, closed, after);
            && 20 <= s.anchor < |closed| && !f.Other?
            && FrozenAt(f, d, closed, s.anchor, s.level)
            && TopOf(closed, s.anchor, s.id.high) && BottomOf(closed, s.anchor, s.id.low)
  {
    ReferenceExtremes(closed, StructureOf(f, d, closed, after).anchor);
  }

  // An event starts at the anchor: its range leaves the level, or its close accepts beyond it and is not
  // taken back by the very next one, unless that one is still the last.
  predicate StartsAt(f: Family, d: Direction, level: real, closed: seq<Bar>, anchor: nat)
    requires anchor < |closed|
  {
    match f
    case Other => false
    case RangeRejection => if d.Long? then closed[anchor].low < level else closed[anchor].high > level
    case BreakoutRetest =>
      && Accepts(d, level, closed[anchor].close)
      && (anchor + 1 < |closed| - 1 ==> Accepts(d, level, closed[anchor + 1].close))
  }

  predicate Accepts(d: Direction, level: real, close: real) {
    if d.Long? then close > level else close < level
  }

  predicate Rejects(d: Direction, level: real, close: real) {
    if d.Long? then close < level else close > level
  }

  lemma ExaminedExactly(f: Family, d: Direction, closed: seq<Bar>, anchor: nat, level: real)
    requires REFERENCE <= anchor < |closed| && FrozenAt(f, d, closed, anchor, level)
    ensures Examine(f, d, closed, anchor).Some? <==> StartsAt(f, d, level, closed, anchor)
  {
    ReferenceExtremes(closed, anchor);
    OneExtreme(closed, anchor, level);
    var event := closed[anchor..];
    assert event[0] == closed[anchor];
    assert |event| > 1 ==> event[1] == closed[anchor + 1];
  }

  lemma OneExtreme(closed: seq<Bar>, anchor: nat, x: real)
    requires REFERENCE <= anchor <= |closed|
    ensures TopOf(closed, anchor, x) ==> x == Highest(Reference(closed, anchor))
    ensures BottomOf(closed, anchor, x) ==> x == Lowest(Reference(closed, anchor))
  {
    ReferenceExtremes(closed, anchor);
  }

  lemma {:induction false} ScanIsFirst(f: Family, d: Direction, closed: seq<Bar>, from: nat)
    requires REFERENCE <= from
    ensures var r := Scan(f, d, closed, from);
            if r.None? then forall a :: from <= a < |closed| ==> Examine(f, d, closed, a).None?
            else forall a :: from <= a < r.value ==> Examine(f, d, closed, a).None?
    decreases |closed| - from
  {
    if from < |closed| && Examine(f, d, closed, from).None? {
      ScanIsFirst(f, d, closed, from + 1);
    }
  }

  // The anchors a scan may take: among the last six candles for a breakout and the last four for a rejection,
  // after the last one taken, and with a full reference.
  predicate InWindow(f: Family, closed: seq<Bar>, after: Option<nat>, anchor: nat) {
    && 20 <= anchor < |closed|
    && anchor >= |closed| - (if f.BreakoutRetest? then 6 else 4)
    && (after.Some? ==> anchor > after.value)
  }

  /** The anchor is the earliest candle of the window at which an event starts; with none, there is no event. */
  lemma AnchorIsEarliest(f: Family, d: Direction, closed: seq<Bar>, after: Option<nat>, a: nat, level: real)
    requires InWindow(f, closed, after, a) && FrozenAt(f, d, closed, a, level) && |closed| >= 24
    ensures var s := StructureOf(f, d, closed, after);
            && (StartsAt(f, d, level, closed, a) ==> s.Event? && s.anchor <= a)
            && (s.Event? ==> InWindow(f, closed, after, s.anchor) && (s.anchor == a ==> StartsAt(f, d, level, closed, a)))
  {
    ScanIsFirst(f, d, closed, Earliest(f, closed, after));
    ExaminedExactly(f, d, closed, a, level);
  }

  // ---------------------------------------------------------------- one candidate per anchor

  // Candles arrive in time order.
  predicate InOrder(bars: seq<Bar>) {
    forall i, j :: 0 <= i < j < |bars| ==> bars[i].End() < bars[j].End()
  }

  // The candles closed by a time, as the list comprehension picks them.
  function Closed(bars: seq<Bar>, asof: int): seq<Bar> {
    if bars == [] then []
    else
      var last := bars[|bars| - 1];
      Closed(bars[..|bars| - 1], asof) + if last.End() <= asof then [last] else []
  }

  // The first n candles are those closed by a time.
  predicate SplitsAt(bars: seq<Bar>, asof: int, n: nat) {
    n <= |bars| && forall i :: 0 <= i < |bars| ==> (i < n <==> bars[i].End() <= asof)
  }

  lemma FrontInOrder(bars: seq<Bar>)
    requires InOrder(bars) && bars != []
    ensures InOrder(bars[..|bars| - 1])
    ensures |bars| > 1 ==> bars[|bars| - 2].End() < bars[|bars| - 1].End()
  {
  }

  lemma SplitGrows(bars: seq<Bar>, asof: int, n: nat)
    requires bars != [] && SplitsAt(bars[..|bars| - 1], asof, n)
    requires |bars| > 1 ==> bars[|bars| - 2].End() < bars[|bars| - 1].End()
    ensures SplitsAt(bars, asof, if bars[|bars| - 1].End() <= asof then |bars| else n)
    ensures bars[|bars| - 1].End() <= asof ==> n == |bars| - 1
  {
    var front := bars[..|bars| - 1];
    assert forall i :: 0 <= i < |front| ==> bars[i] == front[i];
    if front != [] {
      assert front[|front| - 1] == bars[|bars| - 2];
    }
  }

  lemma {:induction false} ClosedIsPrefix(bars: seq<Bar>, asof: int) returns (n: nat)
    requires InOrder(bars)
    ensures SplitsAt(bars, asof, n) && Closed(bars, asof) == bars[..n]
  {
    n := 0;
    if bars != [] {
      var front, last := bars[..|bars| - 1], bars[|bars| - 1];
      FrontInOrder(bars);
      n := ClosedIsPrefix(front, asof);
      SplitGrows(bars, asof, n);
      assert front[..n] == bars[..n];
      if last.End() <= asof {
        n := |bars|;
        assert front + [last] == bars;
      }
    }
  }

  lemma {:induction false} ReclaimIsFirst(d: Direction, level: real, event: seq<Bar>, i: nat)
    requires i < |event|
    ensures Reclaim(d, level, event) == Some(i) <==>
              Past(d, level, event[i]) && forall k :: 0 <= k < i ==> !Past(d, level, event[k])
  {
    var front := event[..|event| - 1];
    if i < |front| {
      ReclaimIsFirst(d, level, front, i);
      assert forall k :: 0 <= k < i ==> front[k] == event[k];
    } else {
      NoReclaim(d, level, front);
      assert forall k :: 0 <= k < i ==> front[k] == event[k];
    }
  }

  lemma {:induction false} NoReclaim(d: Direction, level: real, event: seq<Bar>)
    ensures Reclaim(d, level, event) == None <==> forall k :: 0 <= k < |event| ==> !Past(d, level, event[k])
  {
    if event != [] {
      NoReclaim(d, level, event[..|event| - 1]);
      assert forall k :: 0 <= k < |event| - 1 ==> event[..|event| - 1][k] == event[k];
    }
  }

  predicate Ends(d: Direction, level: real, b: Bar) {
    !Past(d, level, b) || Touches(d, level, b)
  }

  lemma {:induction false} NoRetest(d: Direction, level: real, tail: seq<Bar>)
    ensures Retest(d, level, tail) == None <==> forall k :: 0 <= k < |tail| ==> !Ends(d, level, tail[k])
  {
    if tail != [] {
      NoRetest(d, level, tail[..|tail| - 1]);
      assert forall k :: 0 <= k < |tail| - 1 ==> tail[..|tail| - 1][k] == tail[k];
    }
  }

  lemma {:induction false} RetestIsFirst(d: Direction, level: real, tail: seq<Bar>, i: nat)
    requires i < |tail|
    ensures Retest(d, level, tail) == Some(i) <==>
              Ends(d, level, tail[i]) && forall k :: 0 <= k < i ==> !Ends(d, level, tail[k])
  {
    var front := tail[..|tail| - 1];
    if i < |front| {
      RetestIsFirst(d, level, front, i);
      assert forall k :: 0 <= k < i ==> front[k] == tail[k];
    } else {
      NoRetest(d, level, front);
      assert forall k :: 0 <= k < i ==> front[k] == tail[k];
    }
  }

  /** What a valid range candidate is, candle by candle: the anchor left the range, the last candle is
      the first to close back past the level, and neither the two candles before the anchor nor any two
      from the anchor on closed behind it in a row. */
  predicate ReclaimedNow(d: Direction, level: real, closed: seq<Bar>, anchor: nat)
    requires 2 <= anchor < |closed|
  {
    && (if d.Long? then closed[anchor].low < level else closed[anchor].high > level)
    && Accepts(d, level, closed[|closed| - 1].close)
    && (forall k :: anchor <= k < |closed| - 1 ==> !Accepts(d, level, closed[k].close))
    && !(Rejects(d, level, closed[anchor - 2].close) && Rejects(d, level, closed[anchor - 1].close))
    && (forall k :: anchor <= k < |closed| - 2 ==> !(Rejects(d, level, closed[k].close) && Rejects(d, level, closed[k + 1].close)))
  }

  /** And a valid breakout candidate: two accepting closes, then closes past the level that never came
      back to it, and the last candle is the first to touch it and closes past it. */
  predicate RetestedNow(d: Direction, level: real, closed: seq<Bar>, anchor: nat)
    requires anchor < |closed|
  {
    && anchor + 3 <= |closed|
    && (forall k :: anchor <= k < |closed| ==> Accepts(d, level, closed[k].close))
    && (forall k :: anchor + 2 <= k < |closed| - 1 ==> if d.Long? then closed[k].low > level else closed[k].high < level)
    && (if d.Long? then closed[|closed| - 1].low <= level else closed[|closed| - 1].high >= level)
  }

  // The two candidates, in the comparisons of the loop.
  predicate Reclaims(d: Direction, level: real, closed: seq<Bar>, anchor: nat)
    requires 2 <= anchor < |closed|
  {
    && Leaves(d, level, closed[anchor])
    && Past(d, level, closed[|closed| - 1])
    && (forall k :: anchor <= k < |closed| - 1 ==> !Past(d, level, closed[k]))
    && !(Behind(d, level, closed[anchor - 2]) && Behind(d, level, closed[anchor - 1]))
    && (forall k :: anchor <= k < |closed| - 2 ==> !(Behind(d, level, closed[k]) && Behind(d, level, closed[k + 1])))
  }

  predicate Retests(d: Direction, level: real, closed: seq<Bar>, anchor: nat)
    requires anchor < |closed|
  {
    && anchor + 3 <= |closed|
    && (forall k :: anchor <= k < |closed| ==> Past(d, level, closed[k]))
    && (forall k :: anchor + 2 <= k < |closed| - 1 ==> !Touches(d, level, closed[k]))
    && Touches(d, level, closed[|closed| - 1])
  }

  lemma SameComparisons(d: Direction, level: real, b: Bar)
    ensures Past(d, level, b) <==> Accepts(d, level, b.close)
    ensures Behind(d, level, b) <==> Rejects(d, level, b.close)
  {
  }

  lemma SameReclaim(d: Direction, level: real, closed: seq<Bar>, anchor: nat)
    requires 2 <= anchor < |closed|
    ensures Reclaims(d, level, closed, anchor) <==> ReclaimedNow(d, level, closed, anchor)
  {
    forall b ensures (Past(d, level, b) <==> Accepts(d, level, b.close)) && (Behind(d, level, b) <==> Rejects(d, level, b.close)) {
      SameComparisons(d, level, b);
    }
  }

  lemma SameRetest(d: Direction, level: real, closed: seq<Bar>, anchor: nat)
    requires anchor < |closed|
    ensures Retests(d, level, closed, anchor) <==> RetestedNow(d, level, closed, anchor)
  {
    forall b ensures Past(d, level, b) <==> Accepts(d, level, b.close) {
      SameComparisons(d, level, b);
    }
  }

  lemma RangeCandidate(d: Direction, level: real, closed: seq<Bar>, anchor: nat)
    requires 2 <= anchor < |closed| && Leaves(d, level, closed[anchor])
    ensures RangeEvent(d, level, closed[anchor - 2..anchor], closed[anchor..]).Valid() <==> ReclaimedNow(d, level, closed, anchor)
  {
    RangeLoop(d, level, closed, anchor);
    SameReclaim(d, level, closed, anchor);
  }

  lemma RangeLoop(d: Direction, level: real, closed: seq<Bar>, anchor: nat)
    requires 2 <= anchor < |closed| && Leaves(d, level, closed[anchor])
    ensures RangeEvent(d, level, closed[anchor - 2..anchor], closed[anchor..]).Valid() <==> Reclaims(d, level, closed, anchor)
  {
    var event := closed[anchor..];
    var m := |event| - 1;
    ReclaimIsFirst(d, level, event, m);
    assert forall k :: 0 <= k <= m ==> event[k] == closed[anchor + k];
    assert forall k :: anchor <= k < |closed| ==> closed[k] == event[k - anchor];
    var until := event[..m];
    assert forall k :: 0 <= k < m ==> until[k] == closed[anchor + k];
    assert forall k :: anchor <= k < |closed| - 1 ==> closed[k] == until[k - anchor];
  }

  // No well-formed candle of the reference closes behind the level it freezes.
  lemma ReferenceIsNotBehind(d: Direction, closed: seq<Bar>, anchor: nat, k: nat)
    requires REFERENCE <= anchor <= |closed| && anchor - REFERENCE <= k < anchor && closed[k].WellFormed()
    ensures !Behind(d, Level(RangeRejection, d, Reference(closed, anchor)), closed[k])
  {
    ReferenceExtremes(closed, anchor);
  }

  /** For well-formed candles, a reclaimed range never saw two closes in a row behind its level, from the
      first candle of its reference to the last of its event. */
  lemma ReclaimNeverAccepted(d: Direction, closed: seq<Bar>, anchor: nat, k: nat)
    requires REFERENCE <= anchor < |closed| && anchor - REFERENCE <= k < |closed| - 1
    requires ReclaimedNow(d, Level(RangeRejection, d, Reference(closed, anchor)), closed, anchor)
    requires forall i :: anchor - REFERENCE <= i < anchor ==> closed[i].WellFormed()
    ensures var level := Level(RangeRejection, d, Reference(closed, anchor));
            !(Rejects(d, level, closed[k].close) && Rejects(d, level, closed[k + 1].close))
  {
    if k < anchor {
      ReferenceIsNotBehind(d, closed, anchor, k);
    }
  }

  lemma BreakoutCandidate(d: Direction, level: real, closed: seq<Bar>, anchor: nat)
    requires InOrder(closed) && anchor < |closed|
    ensures var r := BreakoutEvent(d, level, closed[anchor..]);
            r.Some? && r.value.Valid() <==> RetestedNow(d, level, closed, anchor)
  {
    BreakoutLoop(d, level, closed, anchor);
    SameRetest(d, level, closed, anchor);
  }

  lemma BreakoutLoop(d: Direction, level: real, closed: seq<Bar>, anchor: nat)
    requires InOrder(closed) && anchor < |closed|
    ensures var r := BreakoutEvent(d, level, closed[anchor..]);
            r.Some? && r.value.Valid() <==> Retests(d, level, closed, anchor)
  {
    var event := closed[anchor..];
    assert forall k :: 0 <= k < |event| ==> event[k] == closed[anchor + k];
    assert forall k :: anchor <= k < |closed| ==> closed[k] == event[k - anchor];
    if |event| >= 3 && Past(d, level, event[0]) && Past(d, level, event[1]) {
      var tail := event[2..];
      var m := |tail| - 1;
      RetestIsFirst(d, level, tail, m);
      assert forall k :: 0 <= k <= m ==> tail[k] == closed[anchor + 2 + k];
      assert forall k :: anchor + 2 <= k < |closed| ==> closed[k] == tail[k - anchor - 2];
      var retest := Retest(d, level, tail);
      if retest.Some? && retest.value < m {
        RetestIsFirst(d, level, tail, retest.value);
        assert tail[retest.value].End() < tail[m].End();
      }
    }
  }

  // The candidate of an anchor, told about the level it froze.
  ghost predicate CandidateAt(f: Family, d: Direction, level: real, closed: seq<Bar>, anchor: nat)
    requires REFERENCE <= anchor < |closed|
  {
    match f
    case Other => false
    case RangeRejection => ReclaimedNow(d, level, closed, anchor)
    case BreakoutRetest => RetestedNow(d, level, closed, anchor)
  }

  ghost predicate CandidateNow(f: Family, d: Direction, closed: seq<Bar>, anchor: nat)
    requires REFERENCE <= anchor < |closed|
  {
    CandidateAt(f, d, Level(f, d, Reference(closed, anchor)), closed, anchor)
  }

  /** A structure is a valid candidate exactly when its anchor's event completes on the last candle, measured
      at the extreme of the twenty candles before the anchor. */
  lemma ValidMeans(f: Family, d: Direction, closed: seq<Bar>, after: Option<nat>)
    requires InOrder(closed) && StructureOf(f, d, closed, after).Event?
    ensures var s := StructureOf(f, d, closed, after);
            && 20 <= s.anchor < |closed| && FrozenAt(f, d, closed, s.anchor, s.level)
            && (s.finding.Valid() <==> CandidateAt(f, d, s.level, closed, s.anchor))
            && (s.finding.Valid() <==> CandidateNow(f, d, closed, s.anchor))
  {
    var a := StructureOf(f, d, closed, after).anchor;
    var level := Level(f, d, Reference(closed, a));
    LevelIsTheExtreme(f, d, closed, after);
    if f.RangeRejection? {
      RangeCandidate(d, level, closed, a);
    } else {
      BreakoutCandidate(d, level, closed, a);
    }
  }

  lemma ReferenceIsFrozen(bars: seq<Bar>, n: nat, anchor: nat)
    requires REFERENCE <= anchor < n <= |bars|
    ensures Reference(bars[..n], anchor) == bars[anchor - REFERENCE..anchor]
  {
  }

  // An event completes on one prefix only: on a longer one its last candle would count as an earlier one.
  lemma CompletesOnce(f: Family, d: Direction, bars: seq<Bar>, n1: nat, n2: nat, anchor: nat)
    requires REFERENCE <= anchor < n1 <= n2 <= |bars|
    requires CandidateNow(f, d, bars[..n1], anchor) && CandidateNow(f, d, bars[..n2], anchor)
    ensures n1 == n2
  {
    ReferenceIsFrozen(bars, n1, anchor);
    ReferenceIsFrozen(bars, n2, anchor);
    assert bars[..n1][n1 - 1] == bars[n1 - 1] == (bars[..n2] + bars[n2..])[n1 - 1];
  }

  // The anchor of a prefix's valid candidate.
  ghost predicate Mints(f: Family, d: Direction, closed: seq<Bar>, after: Option<nat>, anchor: nat) {
    var s := StructureOf(f, d, closed, after);
    s.Event? && s.finding.Valid() && s.anchor == anchor
  }

  lemma MintsWhenComplete(f: Family, d: Direction, closed: seq<Bar>, after: Option<nat>, anchor: nat)
    requires InOrder(closed) && Mints(f, d, closed, after, anchor)
    ensures REFERENCE <= anchor < |closed| && CandidateNow(f, d, closed, anchor)
  {
    ValidMeans(f, d, closed, after);
  }

  /** Evaluations at any two times, from any start after: if both find a valid candidate at one anchor,
      they saw the same candles. A later retest or reclaim cannot mint the event again. */
  lemma OneCandidatePerAnchor(f: Family, d: Direction, bars: seq<Bar>, t1: int, t2: int, after1: Option<nat>, after2: Option<nat>,
                              anchor: nat)
    requires InOrder(bars) && Mints(f, d, Closed(bars, t1), after1, anchor) && Mints(f, d, Closed(bars, t2), after2, anchor)
    ensures Closed(bars, t1) == Closed(bars, t2)
  {
    var n1 := ClosedIsPrefix(bars, t1);
    var n2 := ClosedIsPrefix(bars, t2);
    MintsWhenComplete(f, d, bars[..n1], after1, anchor);
    MintsWhenComplete(f, d, bars[..n2], after2, anchor);
    if n1 <= n2 {
      CompletesOnce(f, d, bars, n1, n2, anchor);
    } else {
      CompletesOnce(f, d, bars, n2, n1, anchor);
    }
  }

  predicate Uniform(bars: seq<Bar>, interval: int) {
    forall i :: 0 <= i < |bars| ==> bars[i].interval == interval
  }

  lemma StructureAt(f: Family, d: Direction, bars: seq<Bar>, interval: int, n: nat, after: Option<nat>)
    requires Uniform(bars, interval) && n <= |bars| && StructureOf(f, d, bars[..n], after).Event?
    ensures var s := StructureOf(f, d, bars[..n], after);
            && REFERENCE <= s.anchor < n
            && var reference := Reference(bars, s.anchor);
               && s.level == Level(f, d, reference)
               && s.id == EventId(f, d, interval, bars[s.anchor].End() - interval, Highest(reference), Lowest(reference))
  {
    ReferenceIsFrozen(bars, n, StructureOf(f, d, bars[..n], after).anchor);
  }

  /** Evaluations that name the same anchor, valid or not, freeze the same level under the same id,
      and the id names the anchor. */
  lemma EventIdIsTheAnchor(f: Family, d: Direction, bars: seq<Bar>, interval: int, t1: int, t2: int,
                           after1: Option<nat>, after2: Option<nat>)
    requires InOrder(bars) && Uniform(bars, interval)
    requires StructureOf(f, d, Closed(bars, t1), after1).Event? && StructureOf(f, d, Closed(bars, t2), after2).Event?
    ensures var s1, s2 := StructureOf(f, d, Closed(bars, t1), after1), StructureOf(f, d, Closed(bars, t2), after2);
            && (s1.anchor == s2.anchor <==> s1.id == s2.id)
            && (s1.anchor == s2.anchor ==> s1.level == s2.level)
  {
    var n1 := ClosedIsPrefix(bars, t1);
    var n2 := ClosedIsPrefix(bars, t2);
    StructureAt(f, d, bars, interval, n1, after1);
    StructureAt(f, d, bars, interval, n2, after2);
  }
}
