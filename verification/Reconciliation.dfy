// One frozen plan followed in two ways: minute by minute over closed OHLC candles
// (reconciliation.advance) and trade by trade (lifecycle.advance_trades). The theorems
// relate the two over the same trades, and one call to the same bars fed in pages.
module Reconciliation {
  import opened Common
  import opened Bars

  datatype Plan = Plan(direction: Direction, zoneLow: real, zoneHigh: real, stop: real, tp1: real, tp2: real,
                       legacy: bool, alerted: bool, expires: int, triggerExpires: Option<int>, holding: Option<int>)

  function TriggerEnd(p: Plan): int {
    Or(p.triggerExpires, p.expires)
  }

  // The deadline of the candle path.
  function Deadline(p: Plan): int {
    var held := Or(p.holding, p.expires);
    if p.alerted || held <= TriggerEnd(p) then held else TriggerEnd(p)
  }

  predicate StopTouched(p: Plan, low: real, high: real) {
    if p.direction.Long? then low <= p.stop else high >= p.stop
  }

  predicate TargetTouched(p: Plan, low: real, high: real, target: real) {
    if p.direction.Long? then high >= target else low <= target
  }

  // ---------------------------------------------------------------- candle by candle

  datatype Verdict = Open | Stop | Target | Expired

  datatype Status =
    | Running
    | Missing                                   // a candle is absent: stop at the gap
    | Invalid                                   // a malformed candle: stop before it
    | Hit(stop: bool, at: int, ambiguous: bool)

  datatype Path = Path(cursor: int, expected: int, entered: Option<int>, status: Status)

  function Begin(cursor: int, entered: Option<int>): Path {
    Path(cursor, Floor(cursor), entered, Running)
  }

  function EntryAfter(p: Plan, entered: Option<int>, b: Bar): Option<int> {
    if entered.None? && b.start <= TriggerEnd(p) && b.low <= p.zoneHigh && b.high >= p.zoneLow
    then Some(b.End()) else entered
  }

  // One candle of the loop; `from` is the cursor the call started with.
  function Step(p: Plan, from: int, limit: int, s: Path, b: Bar): Path {
    if !s.status.Running? || b.End() <= from || b.End() > limit then s
    else if b.start != s.expected || b.interval != MINUTE then s.(status := Missing)
    else if !b.WellFormed() then s.(status := Invalid)
    else
      var stop := StopTouched(p, b.low, b.high);
      var target := TargetTouched(p, b.low, b.high, p.tp1);
      var next := Path(b.End(), b.End(), EntryAfter(p, s.entered, b), Running);
      if stop || (target && s.entered.Some? && !p.legacy)
      then next.(status := Hit(stop, b.End(), (stop && target) || b.start < from))
      else next
  }

  function Walk(p: Plan, from: int, limit: int, s: Path, bars: seq<Bar>): Path {
    if bars == [] then s
    else Step(p, from, limit, Walk(p, from, limit, s, bars[..|bars| - 1]), bars[|bars| - 1])
  }

  datatype Result = Result(cursor: int, entered: Option<int>, covered: bool, verdict: Verdict,
                           effective: int, ambiguous: bool, problem: Status)

  function Limit(p: Plan, until: int): int {
    if until <= Deadline(p) then until else Deadline(p)
  }

  function Finish(p: Plan, s: Path, until: int): Result {
    match s.status
    case Hit(stop, at, ambiguous) =>
      Result(s.cursor, s.entered, true, if stop then Stop else Target, at, ambiguous, s.status)
    case Running =>
      var covered := s.cursor >= Floor(Limit(p, until));
      if covered && until >= Deadline(p)
      then Result(s.cursor, s.entered, true, Expired, Deadline(p), false, Running)
      else Result(s.cursor, s.entered, covered, Open, 0, false, Running)
    case _ => Result(s.cursor, s.entered, false, Open, 0, false, s.status)
  }

  function AdvanceSorted(p: Plan, entered: Option<int>, bars: seq<Bar>, cursor: int, until: int): Result {
    Finish(p, Walk(p, cursor, Limit(p, until), Begin(cursor, entered), bars), until)
  }

  function Advance(p: Plan, entered: Option<int>, bars: seq<Bar>, cursor: int, until: int): Result {
    AdvanceSorted(p, entered, SortByStart(bars), cursor, until)
  }

  // The candle loop, left from the middle on a gap, a bad candle or a hit.
  method WalkLoop(p: Plan, from: int, limit: int, begin: Path, bars: seq<Bar>) returns (s: Path)
    requires begin.status.Running?
    ensures s == Walk(p, from, limit, begin, bars)
  {
    s := begin;
    for i := 0 to |bars|
      invariant s == Walk(p, from, limit, begin, bars[..i]) && s.status.Running?
    {
      assert bars[..i + 1][..i] == bars[..i];
      s := Step(p, from, limit, s, bars[i]);
      if !s.status.Running? {
        StoppedStays(p, from, limit, begin, bars, i + 1);
        return;
      }
    }
    assert bars[..|bars|] == bars;
  }

  /** advance: sort the page, walk it, and judge where the walk ended. */
  method AdvanceLoop(p: Plan, entered: Option<int>, bars: seq<Bar>, cursor: int, until: int) returns (r: Result)
    ensures r == Advance(p, entered, bars, cursor, until)
  {
    var sorted := Sort(bars);
    var s := WalkLoop(p, cursor, Limit(p, until), Begin(cursor, entered), sorted);
    r := Finish(p, s, until);
  }

  // Once a walk has stopped, later candles do not change it.
  lemma {:induction false} StoppedStays(p: Plan, from: int, limit: int, s: Path, bars: seq<Bar>, k: nat)
    requires k <= |bars| && !Walk(p, from, limit, s, bars[..k]).status.Running?
    ensures Walk(p, from, limit, s, bars) == Walk(p, from, limit, s, bars[..k])
    decreases |bars|
  {
    if k == |bars| {
      assert bars[..k] == bars;
    } else {
      assert bars[..|bars| - 1][..k] == bars[..k];
      StoppedStays(p, from, limit, s, bars[..|bars| - 1], k);
    }
  }

  // ---------------------------------------------------------------- the trades under the candles

  predicate In(t: Trade, start: int, end: int) {
    start <= t.event < end
  }

  predicate Touches(p: Plan, t: Trade) {
    StopTouched(p, t.price, t.price)
  }

  // No trade of the candle's minute lies outside its range. A minute without trades has any candle.
  predicate Contains(ticks: seq<Trade>, b: Bar) {
    forall i :: 0 <= i < |ticks| && In(ticks[i], b.start, b.End()) ==> b.low <= ticks[i].price <= b.high
  }

  // The extremes of the candle are prices that traded in its minute.
  predicate Attains(ticks: seq<Trade>, b: Bar) {
    && (exists i :: 0 <= i < |ticks| && In(ticks[i], b.start, b.End()) && ticks[i].price == b.low)
    && (exists i :: 0 <= i < |ticks| && In(ticks[i], b.start, b.End()) && ticks[i].price == b.high)
  }

  ghost predicate AllContain(ticks: seq<Trade>, bars: seq<Bar>) {
    forall b :: b in bars && b.interval == MINUTE ==> Contains(ticks, b)
  }

  // The candle that ends at a time, if there is one, has traded extremes.
  ghost predicate AttainsAt(ticks: seq<Trade>, bars: seq<Bar>, end: int) {
    forall b :: b in bars && b.interval == MINUTE && b.End() == end ==> Attains(ticks, b)
  }

  ghost predicate Untouched(p: Plan, ticks: seq<Trade>, start: int, end: int) {
    forall i :: 0 <= i < |ticks| && In(ticks[i], start, end) ==> !Touches(p, ticks[i])
  }

  ghost predicate TouchedIn(p: Plan, ticks: seq<Trade>, start: int, end: int) {
    exists i :: 0 <= i < |ticks| && In(ticks[i], start, end) && Touches(p, ticks[i])
  }

  // A candle whose range misses the stop has no trade at it.
  lemma CandleStop(p: Plan, ticks: seq<Trade>, b: Bar)
    requires Contains(ticks, b)
    ensures TouchedIn(p, ticks, b.start, b.End()) ==> StopTouched(p, b.low, b.high)
    ensures Attains(ticks, b) && StopTouched(p, b.low, b.high) ==> TouchedIn(p, ticks, b.start, b.End())
  {
  }

  // The minutes already walked: each has its candle.
  ghost predicate Contiguous(bars: seq<Bar>, start: int, end: int) {
    forall m :: start <= m < end && m % MINUTE == 0 ==> HasMinute(bars, m)
  }

  predicate HasMinute(bars: seq<Bar>, m: int) {
    exists b :: b in bars && b.start == m && b.interval == MINUTE
  }

  // A one-minute candle that ends at a time reaches the stop.
  predicate StopCandle(p: Plan, bars: seq<Bar>, end: int) {
    exists b :: b in bars && b.interval == MINUTE && b.End() == end && StopTouched(p, b.low, b.high)
  }

  // What a walk that started at the whole minute `first` has established.
  ghost predicate Established(p: Plan, ticks: seq<Trade>, bars: seq<Bar>, first: int, s: Path) {
    && s.expected % MINUTE == 0 && first <= s.expected
    && Contiguous(bars, first, s.expected)
    && (match s.status
        case Hit(stop, at, _) =>
          && at == s.cursor == s.expected && first <= at - MINUTE
          && Untouched(p, ticks, first, at - MINUTE)
          && (if stop then StopCandle(p, bars, at) else !TouchedIn(p, ticks, at - MINUTE, at))
        case _ => Untouched(p, ticks, first, s.expected) && (s.cursor == s.expected || s.expected == first))
  }

  lemma ContiguousMore(bars: seq<Bar>, b: Bar, start: int, end: int)
    requires Contiguous(bars, start, end)
    ensures Contiguous(bars + [b], start, end)
    ensures end % MINUTE == 0 && b.start == end && b.interval == MINUTE ==> Contiguous(bars + [b], start, end + MINUTE)
  {
    forall m | start <= m < end && m % MINUTE == 0
      ensures HasMinute(bars + [b], m)
    {
      assert HasMinute(bars, m);
      var a :| a in bars && a.start == m && a.interval == MINUTE;
      assert a in bars + [b];
    }
    assert b in bars + [b];
  }

  lemma StepEstablishes(p: Plan, ticks: seq<Trade>, bars: seq<Bar>, b: Bar, first: int, from: int, limit: int, s: Path)
    requires Established(p, ticks, bars, first, s)
    requires b.interval == MINUTE ==> Contains(ticks, b)
    ensures Established(p, ticks, bars + [b], first, Step(p, from, limit, s, b))
  {
    ContiguousMore(bars, b, first, s.expected);
    assert b in bars + [b] && forall c :: c in bars ==> c in bars + [b];
    if b.interval == MINUTE {
      CandleStop(p, ticks, b);
    }
  }

  lemma {:induction false} WalkEstablishes(p: Plan, ticks: seq<Trade>, bars: seq<Bar>, cursor: int, limit: int, entered: Option<int>)
    requires AllContain(ticks, bars)
    ensures Established(p, ticks, bars, Floor(cursor), Walk(p, cursor, limit, Begin(cursor, entered), bars))
  {
    if bars != [] {
      var front := bars[..|bars| - 1];
      WalkEstablishes(p, ticks, front, cursor, limit, entered);
      StepEstablishes(p, ticks, front, bars[|bars| - 1], Floor(cursor), cursor, limit,
                      Walk(p, cursor, limit, Begin(cursor, entered), front));
      assert bars == front + [bars[|bars| - 1]];
    }
  }

  lemma SortedMembers(bars: seq<Bar>)
    ensures forall b :: b in SortByStart(bars) <==> b in bars
  {
    SortByStartSorts(bars);
    forall b
      ensures b in SortByStart(bars) <==> b in bars
    {
      assert b in SortByStart(bars) <==> b in multiset(SortByStart(bars));
      assert b in bars <==> b in multiset(bars);
    }
  }

  // How far a call has looked: the start of its first minute when it walked no candle.
  function Checked(cursor: int, r: Result): int {
    if r.cursor == cursor then Floor(cursor) else r.cursor
  }

  // Up to where a call has ruled out the stop: the start of the stop's candle, or all it has checked.
  function StopFree(cursor: int, r: Result): int {
    if r.verdict.Stop? then r.effective - MINUTE else Checked(cursor, r)
  }

  /** Candles never hide a stop: no trade of a minute checked before the verdict touched it, and the
      checked minutes have no gap. A STOP verdict puts it in its own candle, by the candle's range, and
      by a trade of that minute when the candle's extremes are traded prices. */
  lemma CandlesNeverHideAStop(p: Plan, ticks: seq<Trade>, entered: Option<int>, bars: seq<Bar>, cursor: int, until: int)
    requires AllContain(ticks, bars)
    ensures var r := Advance(p, entered, bars, cursor, until);
            && Contiguous(bars, Floor(cursor), Checked(cursor, r))
            && Untouched(p, ticks, Floor(cursor), StopFree(cursor, r))
            && (r.verdict.Stop? ==>
                  && Floor(cursor) <= r.effective - MINUTE && r.effective == r.cursor
                  && StopCandle(p, bars, r.effective)
                  && (AttainsAt(ticks, bars, r.effective) ==> TouchedIn(p, ticks, r.effective - MINUTE, r.effective)))
  {
    var sorted := SortByStart(bars);
    SortedMembers(bars);
    assert AllContain(ticks, sorted);
    WalkEstablishes(p, ticks, sorted, cursor, Limit(p, until), entered);
    var s := Walk(p, cursor, Limit(p, until), Begin(cursor, entered), sorted);
    WalkAdvances(p, cursor, Limit(p, until), Begin(cursor, entered), sorted);
    forall m | Floor(cursor) <= m < s.expected && m % MINUTE == 0
      ensures HasMinute(bars, m)
    {
      assert HasMinute(sorted, m);
    }
    if s.status.Hit? {
      if s.status.stop {
        StopAttained(p, ticks, bars, sorted, s.status.at);
      } else {
        UntouchedJoin(p, ticks, Floor(cursor), s.expected - MINUTE, s.expected);
      }
    }
  }

  lemma StopAttained(p: Plan, ticks: seq<Trade>, bars: seq<Bar>, sorted: seq<Bar>, at: int)
    requires AllContain(ticks, sorted) && StopCandle(p, sorted, at) && forall b :: b in sorted <==> b in bars
    ensures StopCandle(p, bars, at)
    ensures AttainsAt(ticks, bars, at) ==> TouchedIn(p, ticks, at - MINUTE, at)
  {
    var b :| b in sorted && b.interval == MINUTE && b.End() == at && StopTouched(p, b.low, b.high);
    assert b in bars;
    CandleStop(p, ticks, b);
  }

  // Entry is kept or dated by the end of a walked candle, and a target hit has an entry before it.
  ghost predicate EntryInv(p: Plan, from: int, entered: Option<int>, bars: seq<Bar>, t: Path) {
    && (entered.Some? ==> t.entered == entered)
    && (entered.None? && t.entered.Some? ==> from < t.entered.value <= t.cursor == t.expected)
    && (t.status.Hit? && !t.status.stop ==>
          && !p.legacy && t.entered.Some? && t.status.at == t.cursor == t.expected
          && (entered.None? ==> t.entered.value <= t.cursor - MINUTE)
          && TargetCandle(p, bars, t.cursor))
  }

  lemma {:induction false} WalkEntry(p: Plan, from: int, limit: int, entered: Option<int>, bars: seq<Bar>)
    ensures EntryInv(p, from, entered, bars, Walk(p, from, limit, Begin(from, entered), bars))
  {
    if bars != [] {
      var front, b := bars[..|bars| - 1], bars[|bars| - 1];
      WalkEntry(p, from, limit, entered, front);
      assert b in bars && forall a :: a in front ==> a in bars;
    }
  }

  ghost predicate TargetIn(p: Plan, ticks: seq<Trade>, start: int, end: int) {
    exists i :: 0 <= i < |ticks| && In(ticks[i], start, end) && TargetTouched(p, ticks[i].price, ticks[i].price, p.tp1)
  }

  lemma CandleTarget(p: Plan, ticks: seq<Trade>, b: Bar)
    requires Attains(ticks, b) && TargetTouched(p, b.low, b.high, p.tp1)
    ensures TargetIn(p, ticks, b.start, b.End())
  {
  }

  predicate TargetCandle(p: Plan, bars: seq<Bar>, end: int) {
    exists b :: b in bars && b.interval == MINUTE && b.End() == end && TargetTouched(p, b.low, b.high, p.tp1)
  }

  lemma EntryInZone(p: Plan, bars: seq<Bar>, cursor: int, until: int)
    requires Advance(p, None, bars, cursor, until).entered.Some?
    ensures exists b :: b in bars && b.End() == Advance(p, None, bars, cursor, until).entered.value && MeetsZone(p, b)
  {
    EntryMeans(p, bars, cursor, until);
    SortedMembers(bars);
    var r, sorted := Advance(p, None, bars, cursor, until), SortByStart(bars);
    assert r.entered == Some(r.entered.value);
    var k: nat :| FirstInZone(p, sorted, k, cursor, r.cursor) && sorted[k].End() == r.entered.value;
    assert sorted[k] in bars;
  }

  /** A TARGET verdict has an entry older than its candle, dated by a candle in the zone, a candle that
      reaches the target, by a trade of that minute when its extremes are traded prices, and no trade at
      the stop before its end. */
  lemma TargetMeans(p: Plan, ticks: seq<Trade>, entered: Option<int>, bars: seq<Bar>, cursor: int, until: int)
    requires AllContain(ticks, bars) && Advance(p, entered, bars, cursor, until).verdict.Target?
    ensures var r := Advance(p, entered, bars, cursor, until);
            && r.entered.Some? && (entered.Some? ==> r.entered == entered)
            && (entered.None? ==>
                  && cursor < r.entered.value <= r.effective - MINUTE
                  && exists b :: b in bars && b.End() == r.entered.value && MeetsZone(p, b))
            && TargetCandle(p, bars, r.effective)
            && (AttainsAt(ticks, bars, r.effective) ==> TargetIn(p, ticks, r.effective - MINUTE, r.effective))
            && Untouched(p, ticks, Floor(cursor), r.effective)
  {
    var sorted := SortByStart(bars);
    SortedMembers(bars);
    WalkEntry(p, cursor, Limit(p, until), entered, sorted);
    var s := Walk(p, cursor, Limit(p, until), Begin(cursor, entered), sorted);
    TargetAttained(p, ticks, bars, sorted, s.status.at);
    if entered.None? {
      EntryInZone(p, bars, cursor, until);
    }
    WalkAdvances(p, cursor, Limit(p, until), Begin(cursor, entered), sorted);
    CandlesNeverHideAStop(p, ticks, entered, bars, cursor, until);
  }

  lemma TargetAttained(p: Plan, ticks: seq<Trade>, bars: seq<Bar>, sorted: seq<Bar>, at: int)
    requires TargetCandle(p, sorted, at) && forall b :: b in sorted <==> b in bars
    ensures TargetCandle(p, bars, at)
    ensures AttainsAt(ticks, bars, at) ==> TargetIn(p, ticks, at - MINUTE, at)
  {
    var b :| b in sorted && b.interval == MINUTE && b.End() == at && TargetTouched(p, b.low, b.high, p.tp1);
    assert b in bars;
    if AttainsAt(ticks, bars, at) {
      CandleTarget(p, ticks, b);
    }
  }

  /** An EXPIRED verdict has seen every whole minute to the deadline, and no trade at the stop in
      any of them. */
  lemma ExpiryMeans(p: Plan, ticks: seq<Trade>, entered: Option<int>, bars: seq<Bar>, cursor: int, until: int)
    requires AllContain(ticks, bars) && Advance(p, entered, bars, cursor, until).verdict.Expired?
    ensures until >= Deadline(p) == Advance(p, entered, bars, cursor, until).effective
    ensures Contiguous(bars, Floor(cursor), Floor(Deadline(p)))
    ensures Untouched(p, ticks, Floor(cursor), Floor(Deadline(p)))
  {
    CandlesNeverHideAStop(p, ticks, entered, bars, cursor, until);
  }

  lemma UntouchedJoin(p: Plan, ticks: seq<Trade>, a: int, b: int, c: int)
    requires Untouched(p, ticks, a, b) && !TouchedIn(p, ticks, b, c)
    ensures Untouched(p, ticks, a, c)
  {
  }

  // A walk either has not moved, or its cursor is the end of one of its candles.
  lemma {:induction false} WalkAdvances(p: Plan, from: int, limit: int, s: Path, bars: seq<Bar>)
    requires s.cursor == from && s.expected == Floor(from) && s.status.Running?
    ensures var t := Walk(p, from, limit, s, bars);
            || (t.cursor == from && t.expected == Floor(from) && !t.status.Hit?)
            || (from < t.cursor == t.expected <= limit && t.expected % MINUTE == 0
                && exists k :: 0 <= k < |bars| && bars[k].End() == t.cursor)
  {
    if bars != [] {
      var front := bars[..|bars| - 1];
      WalkAdvances(p, from, limit, s, front);
      var u, t := Walk(p, from, limit, s, front), Walk(p, from, limit, s, bars);
      if t.cursor == u.cursor && u.cursor != from {
        var k :| 0 <= k < |front| && front[k].End() == u.cursor;
        assert bars[k].End() == t.cursor;
      } else if t.cursor != u.cursor {
        assert bars[|bars| - 1].End() == t.cursor;
      }
    }
  }

  // ---------------------------------------------------------------- the entry

  // A whole minute that the loop can use.
  predicate Usable(b: Bar) {
    b.interval == MINUTE && b.start % MINUTE == 0 && b.WellFormed()
  }

  // Candle k of the sorted list lies in the minutes that a call has moved over, the first usable one there.
  predicate Walked(bars: seq<Bar>, k: nat, from: int, c: int) {
    && k < |bars| && Usable(bars[k]) && from < bars[k].End() <= c
    && forall j :: 0 <= j < k ==> !(Usable(bars[j]) && bars[j].start == bars[k].start)
  }

  // In time for the trigger, and with a range that meets the zone.
  predicate MeetsZone(p: Plan, b: Bar) {
    b.start <= TriggerEnd(p) && b.low <= p.zoneHigh && b.high >= p.zoneLow
  }

  predicate FirstInZone(p: Plan, bars: seq<Bar>, k: nat, from: int, c: int) {
    && Walked(bars, k, from, c) && MeetsZone(p, bars[k])
    && forall j :: 0 <= j < k && Walked(bars, j, from, c) ==> !MeetsZone(p, bars[j])
  }

  // The step on candle k moves the cursor.
  predicate Moves(p: Plan, from: int, limit: int, s: Path, bars: seq<Bar>, k: nat)
    requires k < |bars|
  {
    Walk(p, from, limit, s, bars[..k + 1]).cursor != Walk(p, from, limit, s, bars[..k]).cursor
  }

  lemma OneStep(p: Plan, from: int, limit: int, s: Path, bars: seq<Bar>, k: nat)
    requires k < |bars|
    ensures Walk(p, from, limit, s, bars[..k + 1]) == Step(p, from, limit, Walk(p, from, limit, s, bars[..k]), bars[k])
  {
    assert bars[..k + 1][..k] == bars[..k];
  }

  // What one step does with the entry and the cursor.
  lemma StepEnters(p: Plan, from: int, limit: int, u: Path, b: Bar)
    requires u.cursor == from || u.cursor == u.expected
    ensures var t := Step(p, from, limit, u, b);
            if t.cursor == u.cursor then t.entered == u.entered
            else t.cursor == b.End() && t.entered == if u.entered.None? && MeetsZone(p, b) then Some(b.End()) else u.entered
  {
  }

  // The entry is dated by the first candle in the zone that moved the cursor.
  ghost predicate EntryFollows(p: Plan, from: int, limit: int, s: Path, bars: seq<Bar>, n: nat)
    requires n <= |bars|
  {
    var e := Walk(p, from, limit, s, bars[..n]).entered;
    if e.None? then forall k :: 0 <= k < n && Moves(p, from, limit, s, bars, k) ==> !MeetsZone(p, bars[k])
    else exists k: nat :: FirstMove(p, from, limit, s, bars, n, k) && e == Some(bars[k].End())
  }

  ghost predicate FirstMove(p: Plan, from: int, limit: int, s: Path, bars: seq<Bar>, n: nat, k: nat)
    requires n <= |bars|
  {
    && k < n && Moves(p, from, limit, s, bars, k) && MeetsZone(p, bars[k])
    && forall j :: 0 <= j < k && Moves(p, from, limit, s, bars, j) ==> !MeetsZone(p, bars[j])
  }

  lemma {:induction false} EntryIsFirstMove(p: Plan, from: int, limit: int, s: Path, bars: seq<Bar>, n: nat)
    requires n <= |bars| && s.entered.None? && s.cursor == from && s.expected == Floor(from) && s.status.Running?
    ensures EntryFollows(p, from, limit, s, bars, n)
  {
    if n == 0 {
      assert bars[..0] == [];
    } else {
      EntryIsFirstMove(p, from, limit, s, bars, n - 1);
      OneStep(p, from, limit, s, bars, n - 1);
      WalkAdvances(p, from, limit, s, bars[..n - 1]);
      StepEnters(p, from, limit, Walk(p, from, limit, s, bars[..n - 1]), bars[n - 1]);
      EntryFurther(p, from, limit, s, bars, n - 1);
    }
  }

  lemma EntryFurther(p: Plan, from: int, limit: int, s: Path, bars: seq<Bar>, n: nat)
    requires n < |bars| && EntryFollows(p, from, limit, s, bars, n)
    requires var u, t := Walk(p, from, limit, s, bars[..n]), Walk(p, from, limit, s, bars[..n + 1]);
             t.entered == if t.cursor != u.cursor && u.entered.None? && MeetsZone(p, bars[n]) then Some(bars[n].End()) else u.entered
    ensures EntryFollows(p, from, limit, s, bars, n + 1)
  {
    var u := Walk(p, from, limit, s, bars[..n]);
    if u.entered.Some? {
      var k: nat :| FirstMove(p, from, limit, s, bars, n, k) && u.entered == Some(bars[k].End());
      assert FirstMove(p, from, limit, s, bars, n + 1, k);
    } else if Walk(p, from, limit, s, bars[..n + 1]).entered.Some? {
      assert FirstMove(p, from, limit, s, bars, n + 1, n);
    }
  }

  lemma {:induction false} CursorOnlyGrows(p: Plan, from: int, limit: int, s: Path, bars: seq<Bar>, k: nat, n: nat)
    requires k <= n <= |bars| && s.cursor == from && s.expected == Floor(from) && s.status.Running?
    ensures Walk(p, from, limit, s, bars[..k]).cursor <= Walk(p, from, limit, s, bars[..n]).cursor
    ensures !Walk(p, from, limit, s, bars[..k]).status.Running? ==>
              Walk(p, from, limit, s, bars[..n]) == Walk(p, from, limit, s, bars[..k])
    decreases n
  {
    if k < n {
      CursorOnlyGrows(p, from, limit, s, bars, k, n - 1);
      OneStep(p, from, limit, s, bars, n - 1);
      WalkAdvances(p, from, limit, s, bars[..n - 1]);
    }
  }

  // A usable candle in range either moves the cursor or ends the walk.
  lemma UsableStep(p: Plan, from: int, limit: int, u: Path, b: Bar)
    requires u.status.Running? && (u.cursor == from || u.cursor == u.expected) && Usable(b) && from < b.End() <= limit
    ensures var t := Step(p, from, limit, u, b); t.cursor == u.cursor ==> !t.status.Running?
    ensures var t := Step(p, from, limit, u, b); t.cursor == u.cursor || t.expected == b.End()
  {
  }

  // After the step on a usable candle that moved nothing, the walk is over.
  lemma NotMoved(p: Plan, from: int, limit: int, s: Path, bars: seq<Bar>, k: nat)
    requires k < |bars| && s.cursor == from && s.expected == Floor(from) && s.status.Running?
    requires Usable(bars[k]) && from < bars[k].End() <= limit && !Moves(p, from, limit, s, bars, k)
    ensures Walk(p, from, limit, s, bars).cursor == Walk(p, from, limit, s, bars[..k]).cursor
    ensures forall j :: k <= j < |bars| ==> !Moves(p, from, limit, s, bars, j)
  {
    OneStep(p, from, limit, s, bars, k);
    WalkAdvances(p, from, limit, s, bars[..k]);
    var u := Walk(p, from, limit, s, bars[..k]);
    if u.status.Running? {
      UsableStep(p, from, limit, u, bars[k]);
    }
    forall j | k < j <= |bars| ensures Walk(p, from, limit, s, bars[..j]) == Walk(p, from, limit, s, bars[..k + 1]) {
      CursorOnlyGrows(p, from, limit, s, bars, k + 1, j);
    }
    assert bars[..|bars|] == bars;
  }

  // A candle that moved the cursor is usable, and no usable one before it has its start.
  lemma MovedIsWalked(p: Plan, from: int, limit: int, s: Path, bars: seq<Bar>, k: nat)
    requires k < |bars| && s.cursor == from && s.expected == Floor(from) && s.status.Running?
    requires Moves(p, from, limit, s, bars, k)
    ensures Walked(bars, k, from, Walk(p, from, limit, s, bars).cursor)
  {
    var u := Walk(p, from, limit, s, bars[..k]);
    OneStep(p, from, limit, s, bars, k);
    WalkAdvances(p, from, limit, s, bars[..k]);
    ExpectedIsWhole(from);
    StepUses(p, from, limit, u, bars[k]);
    StepEnters(p, from, limit, u, bars[k]);
    CursorOnlyGrows(p, from, limit, s, bars, k + 1, |bars|);
    assert bars[..|bars|] == bars;
    forall j | 0 <= j < k && Usable(bars[j]) && bars[j].start == bars[k].start ensures false {
      EarlierTwin(p, from, limit, s, bars, j, k);
    }
  }

  lemma ExpectedIsWhole(t: int)
    ensures Floor(t) % MINUTE == 0
  {
  }

  lemma EarlierTwin(p: Plan, from: int, limit: int, s: Path, bars: seq<Bar>, j: nat, k: nat)
    requires j < k < |bars| && s.cursor == from && s.expected == Floor(from) && s.status.Running?
    requires Usable(bars[j]) && Usable(bars[k]) && bars[j].start == bars[k].start && from < bars[k].End() <= limit
    ensures !Moves(p, from, limit, s, bars, k)
  {
    if Moves(p, from, limit, s, bars, j) {
      OneStep(p, from, limit, s, bars, j);
      WalkAdvances(p, from, limit, s, bars[..j]);
      StepEnters(p, from, limit, Walk(p, from, limit, s, bars[..j]), bars[j]);
      CursorOnlyGrows(p, from, limit, s, bars, j + 1, k);
      OneStep(p, from, limit, s, bars, k);
      WalkAdvances(p, from, limit, s, bars[..k]);
      StepEnters(p, from, limit, Walk(p, from, limit, s, bars[..k]), bars[k]);
      CursorOnlyGrows(p, from, limit, s, bars, k, k + 1);
    } else {
      NotMoved(p, from, limit, s, bars, j);
    }
  }

  // The other way round: the first usable candle of its minute, passed over, ends past the walk's cursor.
  lemma UnmovedIsAhead(p: Plan, from: int, limit: int, s: Path, bars: seq<Bar>, k: nat)
    requires Sorted(bars) && k < |bars| && s.cursor == from && s.expected == Floor(from) && s.status.Running?
    requires Usable(bars[k]) && from < bars[k].End() <= limit && !Moves(p, from, limit, s, bars, k)
    requires forall j :: 0 <= j < k ==> !(Usable(bars[j]) && bars[j].start == bars[k].start)
    ensures Walk(p, from, limit, s, bars).cursor < bars[k].End()
  {
    NotMoved(p, from, limit, s, bars, k);
    WalkUses(p, from, limit, s, bars[..k]);
    var c := Walk(p, from, limit, s, bars).cursor;
    if c != from {
      var j :| 0 <= j < k && Used(bars[..k][j], c);
      assert bars[..k][j] == bars[j] && Usable(bars[j]) && bars[j].start <= bars[k].start;
    }
  }

  lemma MovedExactly(p: Plan, from: int, limit: int, s: Path, bars: seq<Bar>, k: nat)
    requires Sorted(bars) && k < |bars| && s.cursor == from && s.expected == Floor(from) && s.status.Running?
    ensures Moves(p, from, limit, s, bars, k) <==> Walked(bars, k, from, Walk(p, from, limit, s, bars).cursor)
  {
    WalkBelowLimit(p, from, limit, s, bars);
    if Moves(p, from, limit, s, bars, k) {
      MovedIsWalked(p, from, limit, s, bars, k);
    } else if Walked(bars, k, from, bars[k].End()) && bars[k].End() <= limit {
      UnmovedIsAhead(p, from, limit, s, bars, k);
    }
  }

  lemma WalkBelowLimit(p: Plan, from: int, limit: int, s: Path, bars: seq<Bar>)
    requires s.cursor == from && s.expected == Floor(from) && s.status.Running?
    ensures Walk(p, from, limit, s, bars).cursor == from || Walk(p, from, limit, s, bars).cursor <= limit
  {
    WalkAdvances(p, from, limit, s, bars);
  }

  lemma OneFirst(p: Plan, bars: seq<Bar>, k: nat, m: nat, from: int, c: int)
    requires FirstInZone(p, bars, k, from, c) && FirstInZone(p, bars, m, from, c)
    ensures k == m
  {
  }

  // The same of the walk over a sorted list.
  lemma WalkEnters(p: Plan, from: int, limit: int, bars: seq<Bar>) returns (k: nat)
    requires Sorted(bars)
    ensures var t := Walk(p, from, limit, Begin(from, None), bars); EntryAt(p, bars, from, t.cursor, t.entered, k)
  {
    var begin := Begin(from, None);
    var t := Walk(p, from, limit, begin, bars);
    EntryIsFirstMove(p, from, limit, begin, bars, |bars|);
    assert bars[..|bars|] == bars;
    forall m: nat | m < |bars| ensures Moves(p, from, limit, begin, bars, m) <==> Walked(bars, m, from, t.cursor) {
      MovedExactly(p, from, limit, begin, bars, m);
    }
    k := 0;
    if t.entered.Some? {
      k :| FirstMove(p, from, limit, begin, bars, |bars|, k) && t.entered == Some(bars[k].End());
    }
  }

  // Candle k, if any, dates the entry.
  ghost predicate EntryAt(p: Plan, bars: seq<Bar>, from: int, c: int, entered: Option<int>, k: nat) {
    if entered.None? then forall m: nat :: Walked(bars, m, from, c) ==> !MeetsZone(p, bars[m])
    else FirstInZone(p, bars, k, from, c) && entered == Some(bars[k].End())
  }

  // An entry at e exactly when the first walked candle in the zone ends there.
  ghost predicate EntryIs(p: Plan, bars: seq<Bar>, from: int, c: int, entered: Option<int>) {
    && (forall e :: entered == Some(e) <==> exists k: nat :: FirstInZone(p, bars, k, from, c) && bars[k].End() == e)
    && (entered.None? <==> forall k: nat :: Walked(bars, k, from, c) ==> !MeetsZone(p, bars[k]))
  }

  lemma EntryExactly(p: Plan, bars: seq<Bar>, from: int, c: int, entered: Option<int>, k: nat)
    requires EntryAt(p, bars, from, c, entered, k)
    ensures EntryIs(p, bars, from, c, entered)
  {
    forall m: nat | FirstInZone(p, bars, m, from, c) ensures entered == Some(bars[m].End()) {
      if entered.Some? {
        OneFirst(p, bars, k, m, from, c);
      }
    }
  }

  lemma WalkEntersExactly(p: Plan, from: int, limit: int, bars: seq<Bar>)
    requires Sorted(bars)
    ensures var t := Walk(p, from, limit, Begin(from, None), bars); EntryIs(p, bars, from, t.cursor, t.entered)
  {
    var t := Walk(p, from, limit, Begin(from, None), bars);
    var k := WalkEnters(p, from, limit, bars);
    EntryExactly(p, bars, from, t.cursor, t.entered, k);
  }

  lemma AdvanceEndsAsTheWalk(p: Plan, entered: Option<int>, bars: seq<Bar>, cursor: int, until: int)
    ensures var r := Advance(p, entered, bars, cursor, until);
            var t := Walk(p, cursor, Limit(p, until), Begin(cursor, entered), SortByStart(bars));
            r.cursor == t.cursor && r.entered == t.entered
  {
  }

  /** The entry of a call that started without one: the end of the first candle, among those it moved over,
      that starts by the end of the trigger and whose range meets the zone; none, when there is no such. */
  lemma EntryMeans(p: Plan, bars: seq<Bar>, cursor: int, until: int)
    ensures var r := Advance(p, None, bars, cursor, until); EntryIs(p, SortByStart(bars), cursor, r.cursor, r.entered)
  {
    SortOrders(bars);
    AdvanceEndsAsTheWalk(p, None, bars, cursor, until);
    WalkEntersExactly(p, cursor, Limit(p, until), SortByStart(bars));
  }

  // ---------------------------------------------------------------- the verdict

  predicate InRange(x: real, low: real, high: real) {
    low <= x <= high
  }

  /** A candle touches the stop exactly when some price of its range is at or beyond it on the losing side,
      and a target exactly when some price is at or beyond it on the winning side. */
  lemma TouchMeans(p: Plan, low: real, high: real, target: real)
    requires low <= high
    ensures StopTouched(p, low, high) <==>
              exists x :: InRange(x, low, high) && if p.direction.Long? then x <= p.stop else x >= p.stop
    ensures TargetTouched(p, low, high, target) <==>
              exists x :: InRange(x, low, high) && if p.direction.Long? then x >= target else x <= target
  {
    assert InRange(low, low, high) && InRange(high, low, high);
  }

  /** The deadline: an alerted plan is held to its holding deadline, or to its expiry if it has none; any other
      one no longer than its trigger. */
  lemma DeadlineMeans(p: Plan)
    ensures var held := if p.holding.Some? && p.holding.value != 0 then p.holding.value else p.expires;
            var trigger := if p.triggerExpires.Some? && p.triggerExpires.value != 0 then p.triggerExpires.value else p.expires;
            && TriggerEnd(p) == trigger
            && (p.alerted ==> Deadline(p) == held)
            && (!p.alerted ==> Deadline(p) <= held && Deadline(p) <= trigger && (Deadline(p) == held || Deadline(p) == trigger))
  {
  }

  // The plan was entered before the candle: by the caller's record, or by an earlier candle of the call.
  predicate Prior(entered: Option<int>, found: Option<int>, b: Bar) {
    entered.Some? || (found.Some? && found.value <= b.start)
  }

  // A candle that decides: at the stop, or for an entered plan of a current profile at the target.
  predicate Decides(p: Plan, b: Bar, prior: bool) {
    StopTouched(p, b.low, b.high) || (prior && !p.legacy && TargetTouched(p, b.low, b.high, p.tp1))
  }

  lemma StepHits(p: Plan, from: int, limit: int, u: Path, b: Bar)
    requires u.cursor == from || u.cursor == u.expected
    ensures var t := Step(p, from, limit, u, b);
            if t.cursor == u.cursor then t.status == u.status || t.status.Missing? || t.status.Invalid?
            else
              && u.status.Running? && u.expected == b.start
              && t.status == if Decides(p, b, u.entered.Some?)
                             then Hit(StopTouched(p, b.low, b.high), b.End(),
                                      (StopTouched(p, b.low, b.high) && TargetTouched(p, b.low, b.high, p.tp1)) || b.start < from)
                             else Running
  {
  }

  // An entry once found stays, and one found later lies past the cursor.
  lemma {:induction false} EntryStays(p: Plan, from: int, limit: int, s: Path, bars: seq<Bar>, k: nat, n: nat)
    requires k <= n <= |bars| && s.cursor == from && s.expected == Floor(from) && s.status.Running?
    ensures var u, t := Walk(p, from, limit, s, bars[..k]), Walk(p, from, limit, s, bars[..n]);
            if u.entered.Some? then t.entered == u.entered else t.entered.Some? ==> t.entered.value > u.cursor
    decreases n
  {
    if k < n {
      EntryStays(p, from, limit, s, bars, k, n - 1);
      OneStep(p, from, limit, s, bars, n - 1);
      WalkAdvances(p, from, limit, s, bars[..n - 1]);
      StepEnters(p, from, limit, Walk(p, from, limit, s, bars[..n - 1]), bars[n - 1]);
      CursorOnlyGrows(p, from, limit, s, bars, k, n);
      CursorOnlyGrows(p, from, limit, s, bars, k, n - 1);
      CursorOnlyGrows(p, from, limit, s, bars, n - 1, n);
    }
  }

  // An entry found by the call is not past its cursor.
  lemma {:induction false} EntryBehind(p: Plan, from: int, limit: int, s: Path, bars: seq<Bar>, n: nat)
    requires n <= |bars| && s.cursor == from && s.expected == Floor(from) && s.status.Running? && s.entered.None?
    ensures var t := Walk(p, from, limit, s, bars[..n]); t.entered.Some? ==> t.entered.value <= t.cursor && from < t.cursor
  {
    if n > 0 {
      EntryBehind(p, from, limit, s, bars, n - 1);
      OneStep(p, from, limit, s, bars, n - 1);
      WalkAdvances(p, from, limit, s, bars[..n - 1]);
      StepEnters(p, from, limit, Walk(p, from, limit, s, bars[..n - 1]), bars[n - 1]);
      CursorOnlyGrows(p, from, limit, s, bars, n - 1, n);
      WalkAdvances(p, from, limit, s, bars[..n]);
    } else {
      assert bars[..0] == [];
    }
  }

  // What the step on candle k knew of the entry.
  lemma PriorMeans(p: Plan, from: int, limit: int, entered: Option<int>, bars: seq<Bar>, k: nat)
    requires k < |bars| && Moves(p, from, limit, Begin(from, entered), bars, k)
    ensures Walk(p, from, limit, Begin(from, entered), bars[..k]).entered.Some? <==>
              Prior(entered, Walk(p, from, limit, Begin(from, entered), bars).entered, bars[k])
  {
    var s := Begin(from, entered);
    var u := Walk(p, from, limit, s, bars[..k]);
    assert bars[..|bars|] == bars && Walk(p, from, limit, s, bars[..0]) == s;
    OneStep(p, from, limit, s, bars, k);
    WalkAdvances(p, from, limit, s, bars[..k]);
    StepHits(p, from, limit, u, bars[k]);
    StepEnters(p, from, limit, u, bars[k]);
    EntryStays(p, from, limit, s, bars, 0, k);
    EntryStays(p, from, limit, s, bars, 0, |bars|);
    if entered.None? {
      EntryBehind(p, from, limit, s, bars, k);
      EntryAfterStep(p, from, limit, s, bars, k);
    }
  }

  lemma EntryAfterStep(p: Plan, from: int, limit: int, s: Path, bars: seq<Bar>, k: nat)
    requires k < |bars| && s.cursor == from && s.expected == Floor(from) && s.status.Running? && s.entered.None?
    requires Moves(p, from, limit, s, bars, k)
    ensures var u, t := Walk(p, from, limit, s, bars[..k]), Walk(p, from, limit, s, bars);
            if u.entered.Some? then t.entered == u.entered else t.entered.Some? ==> t.entered.value > bars[k].start
  {
    var u := Walk(p, from, limit, s, bars[..k]);
    assert bars[..|bars|] == bars;
    OneStep(p, from, limit, s, bars, k);
    WalkAdvances(p, from, limit, s, bars[..k]);
    StepEnters(p, from, limit, u, bars[k]);
    StepHits(p, from, limit, u, bars[k]);
    EntryStays(p, from, limit, s, bars, k, |bars|);
    EntryStays(p, from, limit, s, bars, k + 1, |bars|);
  }

  // A walk that moves no further finds no verdict either.
  lemma {:induction false} NoMoveNoHit(p: Plan, from: int, limit: int, s: Path, bars: seq<Bar>, k: nat, n: nat)
    requires k <= n <= |bars| && s.cursor == from && s.expected == Floor(from) && s.status.Running?
    requires Walk(p, from, limit, s, bars[..n]).cursor == Walk(p, from, limit, s, bars[..k]).cursor
    ensures Walk(p, from, limit, s, bars[..n]).status.Hit? ==> Walk(p, from, limit, s, bars[..k]).status.Hit?
    decreases n
  {
    if k < n {
      CursorOnlyGrows(p, from, limit, s, bars, k, n - 1);
      CursorOnlyGrows(p, from, limit, s, bars, n - 1, n);
      NoMoveNoHit(p, from, limit, s, bars, k, n - 1);
      OneStep(p, from, limit, s, bars, n - 1);
      WalkAdvances(p, from, limit, s, bars[..n - 1]);
      StepHits(p, from, limit, Walk(p, from, limit, s, bars[..n - 1]), bars[n - 1]);
    }
  }

  // Candle k of the walk decides exactly when the walk ends there with a verdict.
  predicate DecidedBy(p: Plan, from: int, t: Path, b: Bar, prior: bool) {
    (Decides(p, b, prior) <==> t.status.Hit? && t.status.at == b.End())
    && (t.status.Hit? && t.status.at == b.End() ==>
          && t.cursor == b.End()
          && (t.status.stop <==> StopTouched(p, b.low, b.high))
          && (t.status.ambiguous <==>
                (StopTouched(p, b.low, b.high) && TargetTouched(p, b.low, b.high, p.tp1)) || b.start < from))
  }

  lemma MoveDecides(p: Plan, from: int, limit: int, entered: Option<int>, bars: seq<Bar>, k: nat)
    requires k < |bars| && Moves(p, from, limit, Begin(from, entered), bars, k)
    ensures var t := Walk(p, from, limit, Begin(from, entered), bars);
            DecidedBy(p, from, t, bars[k], Prior(entered, t.entered, bars[k]))
  {
    var s := Begin(from, entered);
    assert bars[..|bars|] == bars;
    PriorMeans(p, from, limit, entered, bars, k);
    OneStep(p, from, limit, s, bars, k);
    WalkAdvances(p, from, limit, s, bars[..k]);
    StepHits(p, from, limit, Walk(p, from, limit, s, bars[..k]), bars[k]);
    StepEnters(p, from, limit, Walk(p, from, limit, s, bars[..k]), bars[k]);
    CursorOnlyGrows(p, from, limit, s, bars, k + 1, |bars|);
    HitsWhereItStands(p, from, limit, s, bars);
    if Walk(p, from, limit, s, bars).cursor == bars[k].End() {
      NoMoveNoHit(p, from, limit, s, bars, k + 1, |bars|);
    }
  }

  lemma {:induction false} HitsWhereItStands(p: Plan, from: int, limit: int, s: Path, bars: seq<Bar>)
    requires s.status.Running?
    ensures var t := Walk(p, from, limit, s, bars); t.status.Hit? ==> t.status.at == t.cursor
  {
    if bars != [] {
      HitsWhereItStands(p, from, limit, s, bars[..|bars| - 1]);
    }
  }

  // A verdict was found by a candle of the walk.
  lemma {:induction false} HitHasMoved(p: Plan, from: int, limit: int, s: Path, bars: seq<Bar>, n: nat) returns (k: nat)
    requires n <= |bars| && s.cursor == from && s.expected == Floor(from) && s.status.Running?
    requires Walk(p, from, limit, s, bars[..n]).status.Hit?
    ensures k < n && Moves(p, from, limit, s, bars, k) && Walk(p, from, limit, s, bars[..n]).status.at == bars[k].End()
  {
    OneStep(p, from, limit, s, bars, n - 1);
    WalkAdvances(p, from, limit, s, bars[..n - 1]);
    StepHits(p, from, limit, Walk(p, from, limit, s, bars[..n - 1]), bars[n - 1]);
    if Walk(p, from, limit, s, bars[..n - 1]).status.Hit? {
      k := HitHasMoved(p, from, limit, s, bars, n - 1);
    } else {
      k := n - 1;
    }
  }

  // The verdict of a result, told from one candle of its walk.
  predicate VerdictBy(p: Plan, cursor: int, entered: Option<int>, r: Result, b: Bar) {
    var decided := (r.verdict.Stop? || r.verdict.Target?) && r.effective == b.End();
    && (Decides(p, b, Prior(entered, r.entered, b)) <==> decided)
    && (decided ==>
          && r.cursor == b.End()
          && (r.verdict.Stop? <==> StopTouched(p, b.low, b.high))
          && (r.ambiguous <==>
                (StopTouched(p, b.low, b.high) && TargetTouched(p, b.low, b.high, p.tp1)) || b.start < cursor))
  }

  lemma FinishTells(p: Plan, from: int, entered: Option<int>, t: Path, until: int, b: Bar)
    requires DecidedBy(p, from, t, b, Prior(entered, t.entered, b))
    ensures VerdictBy(p, from, entered, Finish(p, t, until), b)
  {
  }

  lemma WalkTells(p: Plan, from: int, limit: int, entered: Option<int>, bars: seq<Bar>, until: int, k: nat)
    requires Sorted(bars) && k < |bars|
    requires Walked(bars, k, from, Walk(p, from, limit, Begin(from, entered), bars).cursor)
    ensures VerdictBy(p, from, entered, Finish(p, Walk(p, from, limit, Begin(from, entered), bars), until), bars[k])
  {
    MovedExactly(p, from, limit, Begin(from, entered), bars, k);
    MoveDecides(p, from, limit, entered, bars, k);
    FinishTells(p, from, entered, Walk(p, from, limit, Begin(from, entered), bars), until, bars[k]);
  }

  lemma WalkFinds(p: Plan, from: int, limit: int, entered: Option<int>, bars: seq<Bar>) returns (k: nat)
    requires Sorted(bars) && Walk(p, from, limit, Begin(from, entered), bars).status.Hit?
    ensures var t := Walk(p, from, limit, Begin(from, entered), bars);
            Walked(bars, k, from, t.cursor) && t.status.at == bars[k].End()
  {
    assert bars[..|bars|] == bars;
    k := HitHasMoved(p, from, limit, Begin(from, entered), bars, |bars|);
    MovedExactly(p, from, limit, Begin(from, entered), bars, k);
  }

  /** The verdict of a call: STOP or TARGET exactly at the first walked candle that touches the stop, or the
      target of a plan entered before it, the stop first; ambiguous when the candle touches both or had
      begun before the cursor. */
  lemma VerdictMeans(p: Plan, entered: Option<int>, bars: seq<Bar>, cursor: int, until: int)
    ensures var r, sorted := Advance(p, entered, bars, cursor, until), SortByStart(bars);
            && (forall k: nat :: Walked(sorted, k, cursor, r.cursor) ==> VerdictBy(p, cursor, entered, r, sorted[k]))
            && (r.verdict.Stop? || r.verdict.Target? ==>
                  exists k: nat :: Walked(sorted, k, cursor, r.cursor) && sorted[k].End() == r.effective)
  {
    var sorted, limit := SortByStart(bars), Limit(p, until);
    SortOrders(bars);
    AdvanceEndsAsTheWalk(p, entered, bars, cursor, until);
    forall k: nat | Walked(sorted, k, cursor, Walk(p, cursor, limit, Begin(cursor, entered), sorted).cursor)
      ensures VerdictBy(p, cursor, entered, Advance(p, entered, bars, cursor, until), sorted[k])
    {
      WalkTells(p, cursor, limit, entered, sorted, until, k);
    }
    if Walk(p, cursor, limit, Begin(cursor, entered), sorted).status.Hit? {
      var k := WalkFinds(p, cursor, limit, entered, sorted);
    }
  }

  /** Without a verdict from a candle, a call says EXPIRED exactly when it was not halted, the deadline has
      come, and the cursor has reached the deadline's minute. */
  lemma ExpiresExactly(p: Plan, entered: Option<int>, bars: seq<Bar>, cursor: int, until: int)
    ensures var r := Advance(p, entered, bars, cursor, until);
            && (r.verdict.Expired? <==> r.problem.Running? && until >= Deadline(p) && r.cursor >= Floor(Deadline(p)))
            && (r.covered <==>
                  || r.problem.Hit?
                  || (r.problem.Running? && r.cursor >= Floor(if until <= Deadline(p) then until else Deadline(p))))
  {
  }

  // ---------------------------------------------------------------- pages

  // Distinct one-minute candles in order, as a venue lists them.
  predicate Minutes(bars: seq<Bar>) {
    && (forall k :: 0 <= k < |bars| ==> bars[k].interval == MINUTE)
    && (forall i, j :: 0 <= i < j < |bars| ==> bars[i].start < bars[j].start)
  }

  // Every candle of a page is closed when the page is read, or lies past the deadline.
  predicate ClosedBy(p: Plan, bars: seq<Bar>, until: int) {
    forall k :: 0 <= k < |bars| ==> bars[k].End() <= until || bars[k].End() > Deadline(p)
  }

  lemma {:induction false} WalkAppend(p: Plan, from: int, limit: int, s: Path, a: seq<Bar>, b: seq<Bar>)
    ensures Walk(p, from, limit, s, a + b) == Walk(p, from, limit, Walk(p, from, limit, s, a), b)
  {
    if b == [] {
      assert a + b == a;
    } else {
      WalkAppend(p, from, limit, s, a, b[..|b| - 1]);
      assert (a + b)[..|a + b| - 1] == a + b[..|b| - 1];
    }
  }

  // A later clock does not change how closed candles are walked.
  lemma {:induction false} SameLimit(p: Plan, from: int, u1: int, u2: int, s: Path, bars: seq<Bar>)
    requires u1 <= u2 && ClosedBy(p, bars, u1)
    ensures Walk(p, from, Limit(p, u1), s, bars) == Walk(p, from, Limit(p, u2), s, bars)
  {
    if bars != [] {
      SameLimit(p, from, u1, u2, s, bars[..|bars| - 1]);
    }
  }

  // Walked candles lie behind the cursor or beyond the limit.
  lemma {:induction false} WalkedAreBehind(p: Plan, from: int, limit: int, s: Path, bars: seq<Bar>)
    requires s.cursor == from && s.expected == Floor(from) && s.status.Running?
    requires Walk(p, from, limit, s, bars).status.Running?
    ensures forall k :: 0 <= k < |bars| ==>
              bars[k].End() <= Walk(p, from, limit, s, bars).cursor || bars[k].End() > limit
  {
    if bars != [] {
      WalkedAreBehind(p, from, limit, s, bars[..|bars| - 1]);
      WalkAdvances(p, from, limit, s, bars[..|bars| - 1]);
    }
  }

  // Candles behind the starting cursor or beyond the limit are skipped.
  lemma {:induction false} SkipAll(p: Plan, from: int, limit: int, s: Path, bars: seq<Bar>)
    requires forall k :: 0 <= k < |bars| ==> bars[k].End() <= from || bars[k].End() > limit
    ensures Walk(p, from, limit, s, bars) == s
  {
    if bars != [] {
      SkipAll(p, from, limit, s, bars[..|bars| - 1]);
    }
  }

  // From a moved cursor on, the walk no longer depends on the cursor the call started with.
  lemma {:induction false} ForgetStart(p: Plan, c0: int, c1: int, limit: int, s: Path, bars: seq<Bar>)
    requires c0 <= c1 <= s.expected && forall k :: 0 <= k < |bars| ==> bars[k].End() > c1
    ensures Walk(p, c0, limit, s, bars) == Walk(p, c1, limit, s, bars)
    ensures Walk(p, c1, limit, s, bars).expected >= s.expected
  {
    if bars != [] {
      ForgetStart(p, c0, c1, limit, s, bars[..|bars| - 1]);
    }
  }

  // A first page, then candles of it delivered again, then later candles.
  lemma WalkPages(p: Plan, cursor: int, limit: int, entered: Option<int>, page: seq<Bar>, again: seq<Bar>, later: seq<Bar>)
    requires Walk(p, cursor, limit, Begin(cursor, entered), page).status.Running?
    requires forall i :: 0 <= i < |again| ==> again[i] in page
    requires forall i, m :: 0 <= i < |page| && 0 <= m < |later| ==> page[i].End() < later[m].End()
    ensures var s := Walk(p, cursor, limit, Begin(cursor, entered), page);
            Walk(p, s.cursor, limit, Begin(s.cursor, s.entered), again + later) ==
            Walk(p, cursor, limit, Begin(cursor, entered), page + later)
  {
    var begin := Begin(cursor, entered);
    var s := Walk(p, cursor, limit, begin, page);
    WalkAdvances(p, cursor, limit, begin, page);
    WalkedAreBehind(p, cursor, limit, begin, page);
    assert Begin(s.cursor, s.entered) == s;
    WalkAppend(p, cursor, limit, begin, page, later);
    WalkAppend(p, s.cursor, limit, s, again, later);
    SkipAll(p, s.cursor, limit, s, again);
    if s.cursor != cursor {
      ForgetStart(p, cursor, s.cursor, limit, s, later);
    }
  }

  lemma SortedPages(p: Plan, entered: Option<int>, page: seq<Bar>, again: seq<Bar>, later: seq<Bar>,
                    cursor: int, u1: int, u2: int)
    requires u1 <= u2 && ClosedBy(p, page, u1)
    requires forall i :: 0 <= i < |again| ==> again[i] in page
    requires forall i, m :: 0 <= i < |page| && 0 <= m < |later| ==> page[i].End() < later[m].End()
    requires AdvanceSorted(p, entered, page, cursor, u1).verdict.Open?
    requires AdvanceSorted(p, entered, page, cursor, u1).problem.Running?
    ensures var first := AdvanceSorted(p, entered, page, cursor, u1);
            AdvanceSorted(p, first.entered, again + later, first.cursor, u2) ==
            AdvanceSorted(p, entered, page + later, cursor, u2)
  {
    SameLimit(p, cursor, u1, u2, Begin(cursor, entered), page);
    WalkPages(p, cursor, Limit(p, u2), entered, page, again, later);
  }

  lemma AdvanceOfMinutes(p: Plan, entered: Option<int>, bars: seq<Bar>, cursor: int, until: int)
    requires Minutes(bars)
    ensures Advance(p, entered, bars, cursor, until) == AdvanceSorted(p, entered, bars, cursor, until)
  {
    SortedAlready(bars);
  }

  // A page that delivers part of an earlier one again.
  lemma Redelivered(bars: seq<Bar>, j: nat, k: nat)
    requires j <= k <= |bars|
    ensures bars == bars[..k] + bars[k..] && bars[j..] == bars[j..k] + bars[k..]
    ensures forall b :: b in bars[j..k] ==> b in bars[..k]
  {
    forall b | b in bars[j..k] ensures b in bars[..k] {
      var i :| 0 <= i < k - j && bars[j..k][i] == b;
      assert bars[..k][j + i] == b;
    }
  }

  lemma LaterEnds(bars: seq<Bar>, k: nat)
    requires Minutes(bars) && k <= |bars|
    ensures forall i, m :: 0 <= i < k && 0 <= m < |bars[k..]| ==> bars[..k][i].End() < bars[k..][m].End()
  {
    forall i, m | 0 <= i < k && 0 <= m < |bars[k..]| ensures bars[..k][i].End() < bars[k..][m].End() {
      assert bars[i].start < bars[k + m].start;
    }
  }

  lemma SlicesOfMinutes(bars: seq<Bar>, j: nat, k: nat)
    requires Minutes(bars) && j <= |bars| && k <= |bars|
    ensures Minutes(bars[..k]) && Minutes(bars[j..])
  {
  }

  lemma SortedSplit(p: Plan, entered: Option<int>, bars: seq<Bar>, cursor: int, u1: int, u2: int, j: nat, k: nat)
    requires Minutes(bars) && j <= k <= |bars| && u1 <= u2 && ClosedBy(p, bars[..k], u1)
    requires AdvanceSorted(p, entered, bars[..k], cursor, u1).verdict.Open?
    requires AdvanceSorted(p, entered, bars[..k], cursor, u1).problem.Running?
    ensures var first := AdvanceSorted(p, entered, bars[..k], cursor, u1);
            AdvanceSorted(p, first.entered, bars[j..], first.cursor, u2) == AdvanceSorted(p, entered, bars, cursor, u2)
  {
    Redelivered(bars, j, k);
    LaterEnds(bars, k);
    SortedPages(p, entered, bars[..k], bars[j..k], bars[k..], cursor, u1, u2);
  }

  /** Paging is invisible: a page that ends without a verdict or a gap, followed by a later page
      that may deliver candles again, gives exactly the result of one call over all of them. */
  lemma PagingInvisible(p: Plan, entered: Option<int>, bars: seq<Bar>, cursor: int, u1: int, u2: int, j: nat, k: nat)
    requires Minutes(bars) && j <= k <= |bars| && u1 <= u2 && ClosedBy(p, bars[..k], u1)
    requires Advance(p, entered, bars[..k], cursor, u1).verdict.Open?
    requires Advance(p, entered, bars[..k], cursor, u1).problem.Running?
    ensures var first := Advance(p, entered, bars[..k], cursor, u1);
            Advance(p, first.entered, bars[j..], first.cursor, u2) == Advance(p, entered, bars, cursor, u2)
  {
    var first := Advance(p, entered, bars[..k], cursor, u1);
    SlicesOfMinutes(bars, j, k);
    AdvanceOfMinutes(p, entered, bars[..k], cursor, u1);
    AdvanceOfMinutes(p, entered, bars, cursor, u2);
    AdvanceOfMinutes(p, first.entered, bars[j..], first.cursor, u2);
    SortedSplit(p, entered, bars, cursor, u1, u2, j, k);
  }

  // ---------------------------------------------------------------- any number of pages

  predicate WholeMinutes(bars: seq<Bar>) {
    forall k :: 0 <= k < |bars| ==> bars[k].start % MINUTE == 0
  }

  // No candle starts inside the minute of an earlier one that a walk can use.
  predicate NoneInside(bars: seq<Bar>) {
    forall a, g :: 0 <= a < g < |bars| && bars[a].start % MINUTE == 0 && bars[a].WellFormed() ==>
      bars[a].End() <= bars[g].start
  }

  // Nor inside the minute of the cursor before it, which a walk from there takes as read.
  predicate Fits(bars: seq<Bar>, cursor: int) {
    NoneInside(bars) && forall k :: 0 <= k < |bars| ==> bars[k].End() <= cursor || Floor(cursor) <= bars[k].start
  }

  lemma WholeMinutesFit(bars: seq<Bar>, cursor: int)
    requires Minutes(bars) && WholeMinutes(bars)
    ensures Fits(bars, cursor)
  {
    forall a, g | 0 <= a < g < |bars| ensures bars[a].End() <= bars[g].start {
      NextMinute(bars[a].start, bars[g].start);
    }
    forall k | 0 <= k < |bars| && bars[k].End() > cursor ensures Floor(cursor) <= bars[k].start {
      LastMinute(bars[k].start, cursor);
    }
  }

  lemma NextMinute(a: int, b: int)
    requires a % MINUTE == 0 && b % MINUTE == 0 && a < b
    ensures a + MINUTE <= b
  {
  }

  lemma LastMinute(a: int, c: int)
    requires a % MINUTE == 0 && c < a + MINUTE
    ensures Floor(c) <= a
  {
  }

  lemma FitsPrefix(bars: seq<Bar>, cursor: int, m: nat)
    requires Fits(bars, cursor) && m <= |bars|
    ensures Fits(bars[..m], cursor)
  {
    var front := bars[..m];
    assert forall k :: 0 <= k < m ==> front[k] == bars[k];
  }

  // Everything but the kind of problem a call ended with.
  function Core(r: Result): Result {
    r.(problem := Running)
  }

  // The candle on which a walk stopped.
  lemma {:induction false} StoppedAt(p: Plan, from: int, limit: int, begin: Path, bars: seq<Bar>) returns (g: nat)
    requires begin.status.Running? && !Walk(p, from, limit, begin, bars).status.Running?
    ensures g < |bars| && Walk(p, from, limit, begin, bars[..g]).status.Running?
    ensures Walk(p, from, limit, begin, bars) == Step(p, from, limit, Walk(p, from, limit, begin, bars[..g]), bars[g])
    ensures bars[g].End() > from && bars[g].End() <= limit
  {
    var last := |bars| - 1;
    if Walk(p, from, limit, begin, bars[..last]).status.Running? {
      g := last;
    } else {
      g := StoppedAt(p, from, limit, begin, bars[..last]);
      assert bars[..last][..g] == bars[..g];
    }
  }

  // A candle at which a walk from this cursor can only stop.
  predicate Blocks(cursor: int, b: Bar) {
    b.start != Floor(cursor) || b.interval != MINUTE || !b.WellFormed()
  }

  lemma {:induction false} Stuck(p: Plan, cursor: int, limit: int, entered: Option<int>, bars: seq<Bar>)
    requires forall k :: 0 <= k < |bars| ==> bars[k].End() <= cursor || bars[k].End() > limit || Blocks(cursor, bars[k])
    ensures var s := Walk(p, cursor, limit, Begin(cursor, entered), bars);
            s.(status := Running) == Begin(cursor, entered) && !s.status.Hit?
  {
    if bars != [] {
      Stuck(p, cursor, limit, entered, bars[..|bars| - 1]);
    }
  }

  // A candle past the cursor on which a walk stops.
  lemma StoppingCandle(p: Plan, from: int, limit: int, s: Path, b: Bar)
    requires s.status.Running? && s.expected == Floor(s.cursor)
    requires var t := Step(p, from, limit, s, b); t.status.Missing? || t.status.Invalid?
    ensures Blocks(s.cursor, b) && Step(p, from, limit, s, b).cursor == s.cursor
    ensures b.End() > s.cursor ==>
              Step(p, s.cursor, limit, Begin(s.cursor, s.entered), b).status == Step(p, from, limit, s, b).status
  {
  }

  // A candle a walk has used ends at c.
  predicate Used(b: Bar, c: int) {
    b.WellFormed() && b.interval == MINUTE && b.start % MINUTE == 0 && b.End() == c
  }

  lemma {:induction false} WalkUses(p: Plan, from: int, limit: int, s: Path, bars: seq<Bar>)
    requires s.cursor == from && s.expected == Floor(from) && s.status.Running?
    ensures var c := Walk(p, from, limit, s, bars).cursor; c == from || exists k :: 0 <= k < |bars| && Used(bars[k], c)
  {
    if bars != [] {
      var front, last := bars[..|bars| - 1], bars[|bars| - 1];
      WalkUses(p, from, limit, s, front);
      WalkAdvances(p, from, limit, s, front);
      var u, t := Walk(p, from, limit, s, front), Walk(p, from, limit, s, bars);
      if t.cursor != u.cursor {
        StepUses(p, from, limit, u, last);
        assert Used(bars[|bars| - 1], t.cursor);
      } else if u.cursor != from {
        var k :| 0 <= k < |front| && Used(front[k], u.cursor);
        assert Used(bars[k], t.cursor);
      }
    }
  }

  lemma StepUses(p: Plan, from: int, limit: int, u: Path, b: Bar)
    requires u.expected % MINUTE == 0 && Step(p, from, limit, u, b).cursor != u.cursor
    ensures Used(b, Step(p, from, limit, u, b).cursor)
  {
  }

  // Candles after walked ones start at or past the minute of the walk's cursor, or are behind its start.
  lemma LaterStand(p: Plan, cursor: int, limit: int, entered: Option<int>, bars: seq<Bar>, k: nat)
    requires Fits(bars, cursor) && k <= |bars|
    ensures var c := Walk(p, cursor, limit, Begin(cursor, entered), bars[..k]).cursor;
            forall i :: k <= i < |bars| ==> bars[i].End() <= cursor || Floor(c) <= bars[i].start
  {
    WalkUses(p, cursor, limit, Begin(cursor, entered), bars[..k]);
    var c := Walk(p, cursor, limit, Begin(cursor, entered), bars[..k]).cursor;
    if c != cursor {
      var a :| 0 <= a < k && Used(bars[..k][a], c);
      assert bars[a] == bars[..k][a] && Floor(c) <= c;
    }
  }

  // A candle after walked ones ends past the cursor.
  lemma PastCursor(p: Plan, cursor: int, limit: int, entered: Option<int>, bars: seq<Bar>, g: nat)
    requires Minutes(bars) && g < |bars| && bars[g].End() > cursor
    requires Walk(p, cursor, limit, Begin(cursor, entered), bars[..g]).status.Running?
    ensures var s := Walk(p, cursor, limit, Begin(cursor, entered), bars[..g]);
            s.cursor < bars[g].End() && s.expected == Floor(s.cursor)
  {
    WalkAdvances(p, cursor, limit, Begin(cursor, entered), bars[..g]);
    var s := Walk(p, cursor, limit, Begin(cursor, entered), bars[..g]);
    if s.cursor != cursor {
      var k :| 0 <= k < g && bars[..g][k].End() == s.cursor;
      assert bars[k].start < bars[g].start;
    }
  }

  // The candle on which a walk stopped stands at or past the expected minute, and those before it are
  // behind the cursor or beyond the limit.
  lemma StoppedWhere(p: Plan, cursor: int, limit: int, entered: Option<int>, bars: seq<Bar>) returns (g: nat)
    requires Minutes(bars) && Fits(bars, cursor)
    requires var t := Walk(p, cursor, limit, Begin(cursor, entered), bars); t.status.Missing? || t.status.Invalid?
    ensures g < |bars| && bars[g].End() <= limit
    ensures var t := Walk(p, cursor, limit, Begin(cursor, entered), bars);
            && Floor(t.cursor) <= bars[g].start && t.cursor < bars[g].End() && Blocks(t.cursor, bars[g])
            && Step(p, t.cursor, limit, Begin(t.cursor, t.entered), bars[g]).status == t.status
            && forall i :: 0 <= i < g ==> bars[i].End() <= t.cursor || bars[i].End() > limit
  {
    var begin := Begin(cursor, entered);
    g := StoppedAt(p, cursor, limit, begin, bars);
    var s := Walk(p, cursor, limit, begin, bars[..g]);
    PastCursor(p, cursor, limit, entered, bars, g);
    StoppingCandle(p, cursor, limit, s, bars[g]);
    LaterStand(p, cursor, limit, entered, bars, g);
    WalkedAreBehind(p, cursor, limit, begin, bars[..g]);
    forall i | 0 <= i < g ensures bars[i].End() <= s.cursor || bars[i].End() > limit {
      assert bars[..g][i] == bars[i];
    }
  }

  // The same within the first k candles.
  lemma StoppedAmong(p: Plan, cursor: int, limit: int, entered: Option<int>, bars: seq<Bar>, k: nat) returns (g: nat)
    requires Minutes(bars) && Fits(bars, cursor) && k <= |bars|
    requires var t := Walk(p, cursor, limit, Begin(cursor, entered), bars[..k]); t.status.Missing? || t.status.Invalid?
    ensures g < k && bars[g].End() <= limit
    ensures var t := Walk(p, cursor, limit, Begin(cursor, entered), bars[..k]);
            && Floor(t.cursor) <= bars[g].start && t.cursor < bars[g].End() && Blocks(t.cursor, bars[g])
            && Step(p, t.cursor, limit, Begin(t.cursor, t.entered), bars[g]).status == t.status
            && forall i :: 0 <= i < g ==> bars[i].End() <= t.cursor || bars[i].End() > limit
  {
    SlicesOfMinutes(bars, 0, k);
    FitsPrefix(bars, cursor, k);
    g := StoppedWhere(p, cursor, limit, entered, bars[..k]);
    assert forall i :: 0 <= i < k ==> bars[..k][i] == bars[i];
  }

  // After a gap or a bad candle, no candle delivered with or after it can be walked.
  lemma NothingWalksOn(p: Plan, cursor: int, limit: int, entered: Option<int>, bars: seq<Bar>, k: nat) returns (c: int)
    requires Minutes(bars) && Fits(bars, cursor) && k <= |bars|
    requires var t := Walk(p, cursor, limit, Begin(cursor, entered), bars[..k]); t.status.Missing? || t.status.Invalid?
    ensures c == Walk(p, cursor, limit, Begin(cursor, entered), bars[..k]).cursor && c < Floor(limit)
    ensures forall i :: 0 <= i < |bars| ==> bars[i].End() <= c || bars[i].End() > limit || Blocks(c, bars[i])
  {
    c := Walk(p, cursor, limit, Begin(cursor, entered), bars[..k]).cursor;
    var g := StoppedAmong(p, cursor, limit, entered, bars, k);
    MinuteFits(c, bars[g].start, limit);
    forall i | 0 <= i < |bars| ensures bars[i].End() <= c || bars[i].End() > limit || Blocks(c, bars[i]) {
      if i > g {
        assert bars[i].start > bars[g].start;
      }
    }
  }

  lemma MinuteFits(c: int, start: int, limit: int)
    requires Floor(c) <= start && start + MINUTE <= limit
    ensures c < Floor(limit)
  {
  }

  // The walk after a gap, with any of its candles delivered again, ends where the first one did.
  lemma BrokenWalk(p: Plan, entered: Option<int>, bars: seq<Bar>, cursor: int, limit: int, j: nat, k: nat)
    requires Minutes(bars) && Fits(bars, cursor) && j <= k <= |bars|
    requires var t := Walk(p, cursor, limit, Begin(cursor, entered), bars[..k]); t.status.Missing? || t.status.Invalid?
    ensures var s := Walk(p, cursor, limit, Begin(cursor, entered), bars[..k]);
            var t := Walk(p, s.cursor, limit, Begin(s.cursor, s.entered), bars[j..]);
            && s.cursor < Floor(limit) && Walk(p, cursor, limit, Begin(cursor, entered), bars) == s
            && t.(status := Running) == Begin(s.cursor, s.entered) && !t.status.Hit?
  {
    var s := Walk(p, cursor, limit, Begin(cursor, entered), bars[..k]);
    StoppedStays(p, cursor, limit, Begin(cursor, entered), bars, k);
    var c := NothingWalksOn(p, cursor, limit, entered, bars, k);
    Stuck(p, c, limit, s.entered, bars[j..]);
  }

  // A page after a gap, with any of its candles delivered again.
  lemma BrokenPage(p: Plan, entered: Option<int>, bars: seq<Bar>, cursor: int, u1: int, u2: int, j: nat, k: nat)
    requires Minutes(bars) && Fits(bars, cursor) && j <= k <= |bars| && u1 <= u2 && ClosedBy(p, bars[..k], u1)
    requires Advance(p, entered, bars[..k], cursor, u1).verdict.Open?
    requires !Advance(p, entered, bars[..k], cursor, u1).problem.Running?
    ensures var first := Advance(p, entered, bars[..k], cursor, u1);
            Core(Advance(p, first.entered, bars[j..], first.cursor, u2)) == Core(Advance(p, entered, bars, cursor, u2))
  {
    var s := Walk(p, cursor, Limit(p, u2), Begin(cursor, entered), bars[..k]);
    SlicesOfMinutes(bars, j, k);
    AdvanceOfMinutes(p, entered, bars[..k], cursor, u1);
    AdvanceOfMinutes(p, entered, bars, cursor, u2);
    SameLimit(p, cursor, u1, u2, Begin(cursor, entered), bars[..k]);
    BrokenWalk(p, entered, bars, cursor, Limit(p, u2), j, k);
    AdvanceOfMinutes(p, s.entered, bars[j..], s.cursor, u2);
  }

  // The candles after a walk that has reached the end.
  lemma LaterAreSkipped(p: Plan, entered: Option<int>, bars: seq<Bar>, cursor: int, limit: int, k: nat)
    requires Fits(bars, cursor) && k <= |bars| && forall i :: 0 <= i < |bars| ==> bars[i].interval == MINUTE
    requires Walk(p, cursor, limit, Begin(cursor, entered), bars[..k]).cursor >= Floor(limit)
    ensures forall i :: 0 <= i < |bars[k..]| ==> bars[k..][i].End() <= cursor || bars[k..][i].End() > limit
  {
    var c := Walk(p, cursor, limit, Begin(cursor, entered), bars[..k]).cursor;
    LaterStand(p, cursor, limit, entered, bars, k);
    forall i | k <= i < |bars| ensures bars[i].End() <= cursor || bars[i].End() > limit {
      if bars[i].End() > cursor {
        PastTheEnd(limit, c, bars[i].start);
      }
    }
  }

  lemma WalkBySkipping(p: Plan, from: int, limit: int, s: Path, bars: seq<Bar>, k: nat)
    requires k <= |bars| && forall i :: 0 <= i < |bars[k..]| ==> bars[k..][i].End() <= from || bars[k..][i].End() > limit
    ensures Walk(p, from, limit, s, bars) == Walk(p, from, limit, s, bars[..k])
  {
    assert bars == bars[..k] + bars[k..];
    WalkAppend(p, from, limit, s, bars[..k], bars[k..]);
    SkipAll(p, from, limit, Walk(p, from, limit, s, bars[..k]), bars[k..]);
  }

  // When a page has reached the end, later candles are all skipped.
  lemma EndedPage(p: Plan, entered: Option<int>, bars: seq<Bar>, cursor: int, limit: int, k: nat)
    requires Minutes(bars) && Fits(bars, cursor) && k <= |bars|
    requires var s := Walk(p, cursor, limit, Begin(cursor, entered), bars[..k]); s.status.Running? && s.cursor >= Floor(limit)
    ensures Walk(p, cursor, limit, Begin(cursor, entered), bars) == Walk(p, cursor, limit, Begin(cursor, entered), bars[..k])
  {
    LaterAreSkipped(p, entered, bars, cursor, limit, k);
    WalkBySkipping(p, cursor, limit, Begin(cursor, entered), bars, k);
  }

  lemma PastTheEnd(limit: int, c: int, start: int)
    requires Floor(limit) <= c && Floor(c) <= start
    ensures start + MINUTE > limit
  {
  }

  // A verdict of the first page is the verdict of the whole.
  lemma DecidedPage(p: Plan, entered: Option<int>, bars: seq<Bar>, cursor: int, u1: int, u2: int, k: nat)
    requires Minutes(bars) && Fits(bars, cursor) && k <= |bars| && u1 <= u2 && ClosedBy(p, bars[..k], u1)
    requires !Advance(p, entered, bars[..k], cursor, u1).verdict.Open?
    ensures Advance(p, entered, bars, cursor, u2) == Advance(p, entered, bars[..k], cursor, u1)
  {
    var begin, limit := Begin(cursor, entered), Limit(p, u2);
    AdvanceOfMinutes(p, entered, bars[..k], cursor, u1);
    AdvanceOfMinutes(p, entered, bars, cursor, u2);
    SameLimit(p, cursor, u1, u2, begin, bars[..k]);
    if Walk(p, cursor, limit, begin, bars[..k]).status.Hit? {
      StoppedStays(p, cursor, limit, begin, bars, k);
    } else {
      EndedPage(p, entered, bars, cursor, limit, k);
    }
  }

  // One call of a run: candles `from` up to `to` of the stream, read at `until`.
  datatype Page = Page(from: nat, to: nat, until: int)

  // Ordered pages without a hole between them: each may deliver candles of earlier ones again.
  predicate Paged(p: Plan, bars: seq<Bar>, pages: seq<Page>) {
    && (forall k :: 0 <= k < |pages| ==> pages[k].from <= pages[k].to <= |bars| && ClosedBy(p, bars[..pages[k].to], pages[k].until))
    && (forall k :: 0 < k < |pages| ==>
          pages[k].from <= pages[k - 1].to <= pages[k].to && pages[k - 1].until <= pages[k].until)
    && (pages != [] ==> pages[0].from == 0)
  }

  // Page by page, each call going on from the stored cursor and entry, until there is a verdict.
  function Feed(p: Plan, entered: Option<int>, bars: seq<Bar>, cursor: int, pages: seq<Page>): Result
    requires Paged(p, bars, pages) && pages != []
  {
    var last := pages[|pages| - 1];
    if |pages| == 1 then Advance(p, entered, bars[last.from..last.to], cursor, last.until)
    else
      var r := Feed(p, entered, bars, cursor, pages[..|pages| - 1]);
      if !r.verdict.Open? then r else Advance(p, r.entered, bars[last.from..last.to], r.cursor, last.until)
  }

  // No page before the last ends with a verdict, a gap or a bad candle.
  predicate Unbroken(p: Plan, entered: Option<int>, bars: seq<Bar>, cursor: int, pages: seq<Page>)
    requires Paged(p, bars, pages)
  {
    forall k :: 0 <= k < |pages| - 1 ==>
      var r := Advance(p, entered, bars[..pages[k].to], cursor, pages[k].until);
      r.verdict.Open? && r.problem.Running?
  }

  // One more page.
  lemma NextPage(p: Plan, entered: Option<int>, bars: seq<Bar>, cursor: int, r: Result, u1: int, u2: int, j: nat, k: nat, m: nat)
    requires Minutes(bars) && j <= k <= m <= |bars| && u1 <= u2 && ClosedBy(p, bars[..k], u1)
    requires var one := Advance(p, entered, bars[..k], cursor, u1);
             Core(r) == Core(one) && (Fits(bars, cursor) || (one.verdict.Open? && one.problem.Running?))
    ensures Core(if !r.verdict.Open? then r else Advance(p, r.entered, bars[j..m], r.cursor, u2)) ==
            Core(Advance(p, entered, bars[..m], cursor, u2))
  {
    var whole := bars[..m];
    assert whole[..k] == bars[..k] && whole[j..] == bars[j..m];
    SlicesOfMinutes(bars, 0, m);
    if Fits(bars, cursor) {
      FitsPrefix(bars, cursor, m);
    }
    var one := Advance(p, entered, bars[..k], cursor, u1);
    if !one.verdict.Open? {
      DecidedPage(p, entered, whole, cursor, u1, u2, k);
    } else if one.problem.Running? {
      PagingInvisible(p, entered, whole, cursor, u1, u2, j, k);
    } else {
      BrokenPage(p, entered, whole, cursor, u1, u2, j, k);
    }
  }

  lemma PagedFront(p: Plan, entered: Option<int>, bars: seq<Bar>, cursor: int, pages: seq<Page>)
    requires Paged(p, bars, pages) && |pages| > 1
    ensures var front, last, before := pages[..|pages| - 1], pages[|pages| - 1], pages[|pages| - 2];
            && Paged(p, bars, front) && last.from <= before.to <= last.to <= |bars| && before.until <= last.until
            && ClosedBy(p, bars[..before.to], before.until)
            && (Unbroken(p, entered, bars, cursor, pages) ==>
                  var r := Advance(p, entered, bars[..before.to], cursor, before.until);
                  Unbroken(p, entered, bars, cursor, front) && r.verdict.Open? && r.problem.Running?)
  {
    var front, before := pages[..|pages| - 1], pages[|pages| - 2];
    assert forall k :: 0 <= k < |front| ==> front[k] == pages[k];
    assert before == pages[|pages| - 1 - 1];
  }

  /** However a stream of candles is split into ordered pages, whatever each page delivers again, and
      whether or not a page ends in a gap, a bad candle or a verdict: the run leaves the cursor, entry,
      coverage, verdict and ambiguity of one call over all of it. Only what a call that got nowhere was
      stopped by may differ. When some candle does not fit, the same holds while no page is broken off. */
  lemma {:induction false} PagesInvisible(p: Plan, entered: Option<int>, bars: seq<Bar>, cursor: int, pages: seq<Page>)
    requires Minutes(bars) && Paged(p, bars, pages) && pages != []
    requires Fits(bars, cursor) || Unbroken(p, entered, bars, cursor, pages)
    ensures var last := pages[|pages| - 1];
            Core(Feed(p, entered, bars, cursor, pages)) == Core(Advance(p, entered, bars[..last.to], cursor, last.until))
  {
    if |pages| > 1 {
      var front, last, before := pages[..|pages| - 1], pages[|pages| - 1], pages[|pages| - 2];
      PagedFront(p, entered, bars, cursor, pages);
      PagesInvisible(p, entered, bars, cursor, front);
      NextPage(p, entered, bars, cursor, Feed(p, entered, bars, cursor, front), before.until, last.until, last.from, before.to, last.to);
    }
  }

  // A plan that no well-formed candle decides.
  function Idle(deadline: int): Plan {
    Plan(Long, 0.0, 0.0, 0.0, 0.0, 0.0, true, true, deadline, None, None)
  }

  // For every plan, every paging of the stream leaves what one call leaves.
  ghost predicate PagesAgree(bars: seq<Bar>, cursor: int) {
    forall p, entered, pages: seq<Page> :: Paged(p, bars, pages) && pages != [] ==>
      var last := pages[|pages| - 1];
      Core(Feed(p, entered, bars, cursor, pages)) == Core(Advance(p, entered, bars[..last.to], cursor, last.until))
  }

  // With nothing delivered, a cursor in the deadline's minute has seen it all.
  lemma NothingLeft(p: Plan, entered: Option<int>, cursor: int)
    requires Floor(Deadline(p)) <= cursor
    ensures Advance(p, entered, [], cursor, Deadline(p)).verdict.Expired?
  {
  }

  // A candle that ends in time and does not start at the cursor's minute keeps every call from its end.
  lemma StuckBefore(p: Plan, cursor: int, limit: int, bars: seq<Bar>)
    requires bars != [] && forall k :: 0 <= k < |bars| ==> bars[k].End() <= cursor || bars[k].End() > limit || Blocks(cursor, bars[k])
    requires cursor < bars[|bars| - 1].End() <= limit
    ensures var s := Walk(p, cursor, limit, Begin(cursor, None), bars); s.status.Missing? || s.status.Invalid?
  {
    Stuck(p, cursor, limit, None, bars[..|bars| - 1]);
    Stuck(p, cursor, limit, None, bars);
  }

  lemma NotAfterAll(p: Plan, bars: seq<Bar>, cursor: int, until: int)
    requires Minutes(bars)
    requires var s := Walk(p, cursor, Limit(p, until), Begin(cursor, None), bars); s.status.Missing? || s.status.Invalid?
    ensures Advance(p, None, bars, cursor, until).verdict.Open?
  {
    AdvanceOfMinutes(p, None, bars, cursor, until);
  }

  lemma OffMinute(start: int)
    requires start % MINUTE != 0
    ensures Floor(start) < start < Floor(start) + MINUTE
    ensures Floor(Floor(start) + MINUTE) == Floor(start) + MINUTE == Floor(start + MINUTE)
  {
  }

  // One call from a cursor inside an off-minute candle that ends in time is stuck.
  lemma OffMinuteStuck(bars: seq<Bar>, g: nat)
    requires Minutes(bars) && g < |bars| && bars[g].start % MINUTE != 0
    ensures var cursor, until := Floor(bars[g].start) + MINUTE, bars[g].End();
            Advance(Idle(until), None, bars[..g + 1], cursor, until).verdict.Open?
  {
    var cursor, until, whole := Floor(bars[g].start) + MINUTE, bars[g].End(), bars[..g + 1];
    OffMinute(bars[g].start);
    forall k | 0 <= k < |whole| ensures Blocks(cursor, whole[k]) {
      assert k < g ==> bars[k].start < bars[g].start;
    }
    SlicesOfMinutes(bars, 0, g + 1);
    StuckBefore(Idle(until), cursor, until, whole);
    NotAfterAll(Idle(until), whole, cursor, until);
  }

  lemma PagedOfTwo(p: Plan, bars: seq<Bar>, m: nat, until: int)
    requires Minutes(bars) && 0 < m <= |bars| && bars[m - 1].End() <= until
    ensures Paged(p, bars, [Page(0, 0, until), Page(0, m, until)])
  {
    forall k | 0 <= k < m ensures bars[..m][k].End() <= until {
      assert k < m - 1 ==> bars[k].start < bars[m - 1].start;
    }
  }

  // From a cursor inside an off-minute candle, an empty page says EXPIRED where one call is stuck.
  lemma OffMinutePages(bars: seq<Bar>, g: nat)
    requires Minutes(bars) && g < |bars| && bars[g].start % MINUTE != 0
    ensures !PagesAgree(bars, Floor(bars[g].start) + MINUTE)
  {
    var cursor, until := Floor(bars[g].start) + MINUTE, bars[g].End();
    var p, pages := Idle(until), [Page(0, 0, until), Page(0, g + 1, until)];
    OffMinute(bars[g].start);
    OffMinuteStuck(bars, g);
    NothingLeft(p, None, cursor);
    PagedOfTwo(p, bars, g + 1, until);
    assert pages[..1] == [Page(0, 0, until)] && bars[0..0] == [];
    assert Feed(p, None, bars, cursor, pages[..1]) == Advance(p, None, [], cursor, until);
    assert Feed(p, None, bars, cursor, pages).verdict.Expired?;
    assert pages[|pages| - 1].to == g + 1 && pages[|pages| - 1].until == until;
  }

  /** Exactly the streams that may be paged anywhere, from any cursor, are those on whole minutes. */
  lemma PagesInvisibleExactly(bars: seq<Bar>)
    requires Minutes(bars)
    ensures (forall cursor :: PagesAgree(bars, cursor)) <==> WholeMinutes(bars)
  {
    if WholeMinutes(bars) {
      forall cursor, p, entered, pages: seq<Page> | Paged(p, bars, pages) && pages != []
        ensures var last := pages[|pages| - 1];
                Core(Feed(p, entered, bars, cursor, pages)) == Core(Advance(p, entered, bars[..last.to], cursor, last.until))
      {
        WholeMinutesFit(bars, cursor);
        PagesInvisible(p, entered, bars, cursor, pages);
      }
    } else {
      var g: nat :| g < |bars| && bars[g].start % MINUTE != 0;
      OffMinutePages(bars, g);
    }
  }

  lemma HaltsAtGap(p: Plan, cursor: int, limit: int, b: Bar)
    requires Floor(cursor) < b.start && cursor < b.End() <= limit
    ensures Step(p, cursor, limit, Begin(cursor, None), b) == Begin(cursor, None).(status := Missing)
  {
  }

  // The reason for a halt belongs to the last page: after a gap, an empty page has none.
  lemma ReasonMayDiffer(p: Plan, b: Bar, cursor: int)
    requires b.interval == MINUTE && Floor(cursor) < b.start && cursor < b.start && b.End() <= Deadline(p)
    ensures var first := Advance(p, None, [b], cursor, b.End());
            && first.problem.Missing? && first.cursor == cursor
            && Advance(p, first.entered, [], first.cursor, b.End()).problem.Running?
  {
    AdvanceOfMinutes(p, None, [b], cursor, b.End());
    WalkOfTwo(p, cursor, b.End(), Begin(cursor, None), b, b);
    HaltsAtGap(p, cursor, b.End(), b);
  }

  // ---------------------------------------------------------------- the pages that are asked for

  // Where the candles from a time on begin.
  function FirstFrom(bars: seq<Bar>, time: int): (r: nat)
    ensures r <= |bars|
  {
    if bars == [] || bars[|bars| - 1].start < time then |bars| else FirstFrom(bars[..|bars| - 1], time)
  }

  // What a request from the cursor's minute returns.
  function Requested(bars: seq<Bar>, cursor: int): seq<Bar> {
    bars[FirstFrom(bars, Floor(cursor))..]
  }

  lemma {:induction false} FirstFromSplits(bars: seq<Bar>, time: int, i: nat)
    requires Minutes(bars) && i < |bars|
    ensures i < FirstFrom(bars, time) <==> bars[i].start < time
  {
    var last := |bars| - 1;
    if bars[last].start >= time && i < last {
      SlicesOfMinutes(bars, 0, last);
      FirstFromSplits(bars[..last], time, i);
      assert bars[..last][i] == bars[i];
    }
  }

  // It is enough to look at the two candles at the boundary.
  lemma {:induction false} FirstFromCut(bars: seq<Bar>, time: int, n: nat, m: nat)
    requires Minutes(bars) && n <= m <= |bars|
    requires (n > 0 ==> bars[n - 1].start < time) && (n < m ==> time <= bars[n].start)
    ensures FirstFrom(bars[..m], time) == n
    decreases m
  {
    if n < m {
      assert n < m - 1 ==> bars[n].start < bars[m - 1].start;
      assert bars[..m][..m - 1] == bars[..m - 1];
      FirstFromCut(bars, time, n, m - 1);
    }
  }

  lemma RequestedFits(bars: seq<Bar>, cursor: int)
    requires Minutes(bars)
    ensures var r := Requested(bars, cursor);
            && Minutes(r) && (forall i :: 0 <= i < |r| ==> Floor(cursor) <= r[i].start)
            && (NoneInside(bars) ==> Fits(r, cursor))
  {
    var j, r := FirstFrom(bars, Floor(cursor)), Requested(bars, cursor);
    forall i | 0 <= i < |r| ensures r[i] == bars[j + i] && Floor(cursor) <= r[i].start {
      FirstFromSplits(bars, Floor(cursor), j + i);
    }
  }

  // A shorter stream answers with the front of what the whole one answers.
  lemma RequestedFront(bars: seq<Bar>, cursor: int, k: nat) returns (n: nat)
    requires Minutes(bars) && k <= |bars|
    ensures n <= |Requested(bars, cursor)| && Requested(bars[..k], cursor) == Requested(bars, cursor)[..n]
  {
    var time, j := Floor(cursor), FirstFrom(bars, Floor(cursor));
    n := if j <= k then k - j else 0;
    if 0 < j <= k {
      FirstFromSplits(bars, time, j - 1);
    }
    if j < k {
      FirstFromSplits(bars, time, j);
    }
    if 0 < k < j {
      FirstFromSplits(bars, time, k - 1);
    }
    FirstFromCut(bars, time, if j <= k then j else k, k);
    if j <= k {
      assert bars[..k][j..] == bars[j..][..k - j];
    } else {
      assert bars[..k][k..] == bars[j..][..0];
    }
  }

  lemma TailStartsLater(bars: seq<Bar>, s: int, t: int)
    requires Minutes(bars) && s <= t
    ensures var j := FirstFrom(bars, s); j <= FirstFrom(bars, t) == j + FirstFrom(bars[j..], t)
  {
    var j, m := FirstFrom(bars, s), FirstFrom(bars, t);
    if m < j {
      FirstFromSplits(bars, s, m);
      FirstFromSplits(bars, t, m);
    }
    var tail := bars[j..];
    SlicesOfMinutes(bars, j, 0);
    if j < m {
      FirstFromSplits(bars, t, m - 1);
    }
    if m < |bars| {
      FirstFromSplits(bars, t, m);
    }
    FirstFromCut(tail, t, m - j, |tail|);
    assert tail[..|tail|] == tail;
  }

  // A later request returns the tail of what an earlier one returned.
  lemma RequestedTail(bars: seq<Bar>, cursor: int, c: int)
    requires Minutes(bars) && Floor(cursor) <= Floor(c)
    ensures Requested(bars, c) == Requested(Requested(bars, cursor), c)
  {
    TailStartsLater(bars, Floor(cursor), Floor(c));
  }

  // A walk whose candles before position n are skipped, and that stops there.
  lemma StopsAt(p: Plan, limit: int, begin: Path, bars: seq<Bar>, n: nat)
    requires n < |bars| && forall i :: 0 <= i < n ==> bars[i].End() <= begin.cursor || bars[i].End() > limit
    requires !Step(p, begin.cursor, limit, begin, bars[n]).status.Running?
    ensures Walk(p, begin.cursor, limit, begin, bars) == Step(p, begin.cursor, limit, begin, bars[n])
  {
    SkipAll(p, begin.cursor, limit, begin, bars[..n]);
    assert bars[..n + 1][..n] == bars[..n];
    StoppedStays(p, begin.cursor, limit, begin, bars, n + 1);
  }

  // Stopped again by the same candle: a request from the cursor delivers it again.
  lemma BrokenAgain(p: Plan, entered: Option<int>, bars: seq<Bar>, cursor: int, limit: int, k: nat)
    requires Minutes(bars) && Fits(bars, cursor) && k <= |bars|
    requires var t := Walk(p, cursor, limit, Begin(cursor, entered), bars[..k]); t.status.Missing? || t.status.Invalid?
    ensures var s := Walk(p, cursor, limit, Begin(cursor, entered), bars[..k]);
            Walk(p, s.cursor, limit, Begin(s.cursor, s.entered), Requested(bars, s.cursor)).status == s.status
  {
    var s := Walk(p, cursor, limit, Begin(cursor, entered), bars[..k]);
    var g := StoppedAmong(p, cursor, limit, entered, bars, k);
    FirstFromSplits(bars, Floor(s.cursor), g);
    StopsAt(p, limit, Begin(s.cursor, s.entered), Requested(bars, s.cursor), g - FirstFrom(bars, Floor(s.cursor)));
  }

  // The next request after a page that ended in a gap or a bad candle.
  lemma BrokenRequest(p: Plan, entered: Option<int>, bars: seq<Bar>, cursor: int, u1: int, u2: int, k: nat)
    requires Minutes(bars) && Fits(bars, cursor) && k <= |bars| && u1 <= u2 && ClosedBy(p, bars[..k], u1)
    requires Advance(p, entered, bars[..k], cursor, u1).verdict.Open?
    requires !Advance(p, entered, bars[..k], cursor, u1).problem.Running?
    requires FirstFrom(bars, Floor(Advance(p, entered, bars[..k], cursor, u1).cursor)) <= k
    ensures var first := Advance(p, entered, bars[..k], cursor, u1);
            Advance(p, first.entered, Requested(bars, first.cursor), first.cursor, u2) == Advance(p, entered, bars, cursor, u2)
  {
    var s := Walk(p, cursor, Limit(p, u2), Begin(cursor, entered), bars[..k]);
    var j := FirstFrom(bars, Floor(s.cursor));
    SlicesOfMinutes(bars, j, k);
    AdvanceOfMinutes(p, entered, bars[..k], cursor, u1);
    AdvanceOfMinutes(p, entered, bars, cursor, u2);
    SameLimit(p, cursor, u1, u2, Begin(cursor, entered), bars[..k]);
    BrokenWalk(p, entered, bars, cursor, Limit(p, u2), j, k);
    BrokenAgain(p, entered, bars, cursor, Limit(p, u2), k);
    AdvanceOfMinutes(p, s.entered, bars[j..], s.cursor, u2);
  }

  lemma CursorGrows(p: Plan, entered: Option<int>, bars: seq<Bar>, cursor: int, until: int)
    ensures Floor(cursor) <= Floor(Advance(p, entered, bars, cursor, until).cursor)
  {
    WalkAdvances(p, cursor, Limit(p, until), Begin(cursor, entered), SortByStart(bars));
  }

  // The candles after a page are all asked for again from its cursor.
  lemma WalkReachesBack(p: Plan, entered: Option<int>, bars: seq<Bar>, cursor: int, limit: int, k: nat)
    requires Minutes(bars) && Fits(bars, cursor) && k <= |bars|
    requires forall i :: 0 <= i < |bars| ==> Floor(cursor) <= bars[i].start
    ensures FirstFrom(bars, Floor(Walk(p, cursor, limit, Begin(cursor, entered), bars[..k]).cursor)) <= k
  {
    if k < |bars| {
      LaterStand(p, cursor, limit, entered, bars, k);
      PastMinute(cursor, bars[k].start);
      FirstFromSplits(bars, Floor(Walk(p, cursor, limit, Begin(cursor, entered), bars[..k]).cursor), k);
    }
  }

  lemma CursorOfFront(p: Plan, entered: Option<int>, bars: seq<Bar>, cursor: int, until: int, k: nat)
    requires Minutes(bars) && k <= |bars|
    ensures Advance(p, entered, bars[..k], cursor, until).cursor ==
            Walk(p, cursor, Limit(p, until), Begin(cursor, entered), bars[..k]).cursor
  {
    SlicesOfMinutes(bars, 0, k);
    AdvanceOfMinutes(p, entered, bars[..k], cursor, until);
  }

  lemma RequestReachesBack(p: Plan, entered: Option<int>, bars: seq<Bar>, cursor: int, until: int, k: nat)
    requires Minutes(bars) && Fits(bars, cursor) && k <= |bars|
    requires forall i :: 0 <= i < |bars| ==> Floor(cursor) <= bars[i].start
    ensures FirstFrom(bars, Floor(Advance(p, entered, bars[..k], cursor, until).cursor)) <= k
  {
    WalkReachesBack(p, entered, bars, cursor, Limit(p, until), k);
    CursorOfFront(p, entered, bars, cursor, until, k);
  }

  lemma PastMinute(cursor: int, start: int)
    requires Floor(cursor) <= start
    ensures cursor < start + MINUTE
  {
  }

  lemma NextRequest(p: Plan, entered: Option<int>, bars: seq<Bar>, cursor: int, u1: int, u2: int, k: nat)
    requires Minutes(bars) && Fits(bars, cursor) && k <= |bars| && u1 <= u2 && ClosedBy(p, bars[..k], u1)
    requires forall i :: 0 <= i < |bars| ==> Floor(cursor) <= bars[i].start
    ensures var first := Advance(p, entered, bars[..k], cursor, u1);
            Advance(p, entered, bars, cursor, u2) ==
            if !first.verdict.Open? then first
            else Advance(p, first.entered, Requested(bars, first.cursor), first.cursor, u2)
  {
    var first := Advance(p, entered, bars[..k], cursor, u1);
    RequestReachesBack(p, entered, bars, cursor, u1, k);
    if !first.verdict.Open? {
      DecidedPage(p, entered, bars, cursor, u1, u2, k);
    } else if first.problem.Running? {
      PagingInvisible(p, entered, bars, cursor, u1, u2, FirstFrom(bars, Floor(first.cursor)), k);
    } else {
      BrokenRequest(p, entered, bars, cursor, u1, u2, k);
    }
  }

  // One attempt of reconcile: how much of the stream is there, and when.
  datatype Attempt = Attempt(to: nat, until: int)

  predicate InTurn(p: Plan, bars: seq<Bar>, attempts: seq<Attempt>) {
    && (forall k :: 0 <= k < |attempts| ==> attempts[k].to <= |bars| && ClosedBy(p, bars[..attempts[k].to], attempts[k].until))
    && (forall k :: 0 < k < |attempts| ==>
          attempts[k - 1].to <= attempts[k].to && attempts[k - 1].until <= attempts[k].until)
  }

  // reconcile, attempt by attempt: each asks for the candles from its cursor's minute on.
  function Reconciled(p: Plan, entered: Option<int>, bars: seq<Bar>, cursor: int, attempts: seq<Attempt>): Result
    requires InTurn(p, bars, attempts) && attempts != []
  {
    var last := attempts[|attempts| - 1];
    if |attempts| == 1 then Advance(p, entered, Requested(bars[..last.to], cursor), cursor, last.until)
    else
      var r := Reconciled(p, entered, bars, cursor, attempts[..|attempts| - 1]);
      if !r.verdict.Open? then r else Advance(p, r.entered, Requested(bars[..last.to], r.cursor), r.cursor, last.until)
  }

  lemma NextAttempt(p: Plan, entered: Option<int>, bars: seq<Bar>, cursor: int, u1: int, u2: int, k: nat)
    requires Minutes(bars) && NoneInside(bars) && k <= |bars| && u1 <= u2 && ClosedBy(p, bars[..k], u1)
    ensures var first := Advance(p, entered, Requested(bars[..k], cursor), cursor, u1);
            Advance(p, entered, Requested(bars, cursor), cursor, u2) ==
            if !first.verdict.Open? then first
            else Advance(p, first.entered, Requested(bars, first.cursor), first.cursor, u2)
  {
    RequestedFits(bars, cursor);
    var n := RequestedFront(bars, cursor, k);
    var first := Advance(p, entered, Requested(bars[..k], cursor), cursor, u1);
    CursorGrows(p, entered, Requested(bars[..k], cursor), cursor, u1);
    RequestedTail(bars, cursor, first.cursor);
    NextRequest(p, entered, Requested(bars, cursor), cursor, u1, u2, n);
  }

  lemma AttemptsFront(p: Plan, bars: seq<Bar>, attempts: seq<Attempt>)
    requires InTurn(p, bars, attempts) && |attempts| > 1
    ensures var front, last, before := attempts[..|attempts| - 1], attempts[|attempts| - 1], attempts[|attempts| - 2];
            && InTurn(p, bars, front) && before.to <= last.to <= |bars| && before.until <= last.until
            && ClosedBy(p, bars[..before.to], before.until)
  {
    var front, before := attempts[..|attempts| - 1], attempts[|attempts| - 2];
    assert forall k :: 0 <= k < |front| ==> front[k] == attempts[k];
    assert before == attempts[|attempts| - 1 - 1];
  }

  lemma NoneInsidePrefix(bars: seq<Bar>, m: nat)
    requires NoneInside(bars) && m <= |bars|
    ensures NoneInside(bars[..m])
  {
    assert forall k :: 0 <= k < m ==> bars[..m][k] == bars[k];
  }

  /** Attempt after attempt, reconcile leaves exactly what one request over the whole stream leaves, gaps,
      bad candles and verdicts included, as long as no candle starts inside the minute of another. */
  lemma {:induction false} ReconciledAsOne(p: Plan, entered: Option<int>, bars: seq<Bar>, cursor: int, attempts: seq<Attempt>)
    requires Minutes(bars) && NoneInside(bars) && InTurn(p, bars, attempts) && attempts != []
    ensures var last := attempts[|attempts| - 1];
            Reconciled(p, entered, bars, cursor, attempts) ==
            Advance(p, entered, Requested(bars[..last.to], cursor), cursor, last.until)
  {
    if |attempts| > 1 {
      var front, last, before := attempts[..|attempts| - 1], attempts[|attempts| - 1], attempts[|attempts| - 2];
      AttemptsFront(p, bars, attempts);
      ReconciledAsOne(p, entered, bars, cursor, front);
      var whole := bars[..last.to];
      assert whole[..before.to] == bars[..before.to];
      SlicesOfMinutes(bars, 0, last.to);
      NoneInsidePrefix(bars, last.to);
      NextAttempt(p, entered, whole, cursor, before.until, last.until, before.to);
    }
  }

  lemma WalkOfTwo(p: Plan, from: int, limit: int, s: Path, a: Bar, b: Bar)
    ensures Walk(p, from, limit, s, [a]) == Step(p, from, limit, s, a)
    ensures Walk(p, from, limit, s, [a, b]) == Step(p, from, limit, Step(p, from, limit, s, a), b)
  {
    assert [a][..0] == [] && [a, b][..1] == [a];
    assert Walk(p, from, limit, s, []) == s;
  }

  // A candle inside the minute of the one before it, which the walk has used.
  lemma StepsInside(p: Plan, limit: int, a: Bar, b: Bar)
    requires a.interval == b.interval == MINUTE && a.start % MINUTE == 0 && a.WellFormed() && !StopTouched(p, a.low, a.high)
    requires a.start < b.start < a.End() <= limit
    ensures var s := Step(p, a.start, limit, Begin(a.start, None), a);
            && s.status.Running? && s.cursor == a.End()
            && (b.End() <= limit ==> Step(p, a.start, limit, s, b).status.Missing?)
  {
  }

  lemma WholeFloor(x: int)
    requires x % MINUTE == 0
    ensures Floor(x) == x && Floor(x + MINUTE) == x + MINUTE
  {
  }

  lemma RequestedOfTwo(bars: seq<Bar>, k: nat)
    requires Minutes(bars) && k + 1 < |bars| && bars[k].start % MINUTE == 0 && bars[k + 1].start < bars[k].End()
    ensures Requested(bars[..k + 1], bars[k].start) == [bars[k]]
    ensures Requested(bars[..k + 2], bars[k].start) == [bars[k], bars[k + 1]]
    ensures Requested(bars[..k + 2], bars[k].End()) == []
  {
    WholeFloor(bars[k].start);
    assert k > 0 ==> bars[k - 1].start < bars[k].start;
    FirstFromCut(bars, bars[k].start, k, k + 1);
    FirstFromCut(bars, bars[k].start, k, k + 2);
    FirstFromCut(bars, bars[k].End(), k + 2, k + 2);
  }

  // One request over both is stuck at the second.
  lemma InsideAtOnce(p: Plan, a: Bar, b: Bar)
    requires Minutes([a, b]) && a.start % MINUTE == 0 && a.WellFormed() && !StopTouched(p, a.low, a.high)
    requires b.start < a.End() && Deadline(p) == b.End()
    ensures Advance(p, None, [a, b], a.start, b.End()).verdict.Open?
  {
    assert [a, b][0] == a && [a, b][1] == b;
    StepsInside(p, b.End(), a, b);
    WalkOfTwo(p, a.start, b.End(), Begin(a.start, None), a, b);
    NotAfterAll(p, [a, b], a.start, b.End());
  }

  lemma NotYet(p: Plan, s: Path, until: int)
    requires s.status.Running? && until < Deadline(p)
    ensures Finish(p, s, until).verdict.Open? && Finish(p, s, until).cursor == s.cursor
  {
  }

  // The first attempt reads the first candle, and the second, from its end, nothing.
  lemma InsideFirst(p: Plan, a: Bar, b: Bar)
    requires a.interval == b.interval == MINUTE && a.start % MINUTE == 0 && a.WellFormed() && !StopTouched(p, a.low, a.high)
    requires a.start < b.start < a.End() && Deadline(p) == b.End()
    ensures var first := Advance(p, None, [a], a.start, a.End()); first.verdict.Open? && first.cursor == a.End()
  {
    StepsInside(p, a.End(), a, b);
    WalkOfTwo(p, a.start, a.End(), Begin(a.start, None), a, b);
    AdvanceOfMinutes(p, None, [a], a.start, a.End());
    NotYet(p, Walk(p, a.start, a.End(), Begin(a.start, None), [a]), a.End());
  }

  lemma InsideSecond(p: Plan, entered: Option<int>, a: Bar, b: Bar)
    requires a.interval == b.interval == MINUTE && a.start % MINUTE == 0
    requires a.start < b.start < a.End() && Deadline(p) == b.End()
    ensures Advance(p, entered, [], a.End(), b.End()).verdict.Expired?
  {
    EndsInMinute(a.start, b.start);
    NothingLeft(p, entered, a.End());
  }

  lemma InTurnOfTwo(p: Plan, bars: seq<Bar>, k: nat)
    requires Minutes(bars) && k + 1 < |bars|
    ensures InTurn(p, bars, [Attempt(k + 1, bars[k].End()), Attempt(k + 2, bars[k + 1].End())])
  {
    forall i | 0 <= i < k + 2 ensures bars[..k + 2][i].End() <= bars[k + 1].End() && (i <= k ==> bars[i].End() <= bars[k].End()) {
      assert i < k + 1 ==> bars[i].start < bars[k + 1].start;
      assert i < k ==> bars[i].start < bars[k].start;
    }
  }

  /** The failing side: a usable candle, and one inside its minute. Read as each closes, the second attempt
      asks from the first candle's end, gets nothing, and says EXPIRED; one request is stuck and stays open. */
  lemma CandleInsideIsPassed(p: Plan, bars: seq<Bar>, k: nat)
    requires Minutes(bars) && k + 1 < |bars| && bars[k].start % MINUTE == 0 && bars[k].WellFormed()
    requires bars[k + 1].start < bars[k].End() && Deadline(p) == bars[k + 1].End()
    requires !StopTouched(p, bars[k].low, bars[k].high)
    ensures var attempts := [Attempt(k + 1, bars[k].End()), Attempt(k + 2, bars[k + 1].End())];
            && InTurn(p, bars, attempts)
            && Reconciled(p, None, bars, bars[k].start, attempts).verdict.Expired?
            && Advance(p, None, Requested(bars[..k + 2], bars[k].start), bars[k].start, bars[k + 1].End()).verdict.Open?
  {
    var first := Advance(p, None, [bars[k]], bars[k].start, bars[k].End());
    RequestedOfTwo(bars, k);
    InsideAtOnce(p, bars[k], bars[k + 1]);
    InTurnOfTwo(p, bars, k);
    InsideFirst(p, bars[k], bars[k + 1]);
    InsideSecond(p, first.entered, bars[k], bars[k + 1]);
    TwoAttempts(p, bars, bars[k].start, Attempt(k + 1, bars[k].End()), Attempt(k + 2, bars[k + 1].End()));
  }

  lemma TwoAttempts(p: Plan, bars: seq<Bar>, cursor: int, x: Attempt, y: Attempt)
    requires x.to <= |bars| && y.to <= |bars| && InTurn(p, bars, [x, y])
    ensures var r := Advance(p, None, Requested(bars[..x.to], cursor), cursor, x.until);
            Reconciled(p, None, bars, cursor, [x, y]) ==
            if !r.verdict.Open? then r else Advance(p, r.entered, Requested(bars[..y.to], r.cursor), r.cursor, y.until)
  {
    assert [x, y][..1] == [x];
    assert InTurn(p, bars, [x]) by {
      assert [x, y][0] == x;
    }
  }

  lemma EndsInMinute(a: int, b: int)
    requires a % MINUTE == 0 && a < b < a + MINUTE
    ensures Floor(b + MINUTE) == a + MINUTE
  {
  }

  ghost predicate AsOne(p: Plan, entered: Option<int>, bars: seq<Bar>, cursor: int, attempts: seq<Attempt>)
    requires InTurn(p, bars, attempts) && attempts != []
  {
    var last := attempts[|attempts| - 1];
    Reconciled(p, entered, bars, cursor, attempts) ==
    Advance(p, entered, Requested(bars[..last.to], cursor), cursor, last.until)
  }

  // For every plan and cursor, reconcile leaves after any attempts what one request leaves.
  ghost predicate AttemptsAgree(bars: seq<Bar>) {
    forall p, entered, cursor, attempts: seq<Attempt> :: InTurn(p, bars, attempts) && attempts != [] ==>
      AsOne(p, entered, bars, cursor, attempts)
  }

  lemma NeighbourDisagrees(p: Plan, bars: seq<Bar>, k: nat)
    requires Minutes(bars) && k + 1 < |bars| && bars[k].start % MINUTE == 0 && bars[k].WellFormed()
    requires bars[k + 1].start < bars[k].End() && Deadline(p) == bars[k + 1].End()
    requires !StopTouched(p, bars[k].low, bars[k].high)
    ensures var attempts := [Attempt(k + 1, bars[k].End()), Attempt(k + 2, bars[k + 1].End())];
            InTurn(p, bars, attempts) && !AsOne(p, None, bars, bars[k].start, attempts)
  {
    CandleInsideIsPassed(p, bars, k);
  }

  lemma InsideDisagrees(bars: seq<Bar>, k: nat, g: nat)
    requires Minutes(bars) && k < g < |bars| && bars[k].start % MINUTE == 0 && bars[k].WellFormed()
    requires bars[g].start < bars[k].End()
    ensures !AttemptsAgree(bars)
  {
    assert k + 1 < g ==> bars[k + 1].start < bars[g].start;
    NeighbourDisagrees(Idle(bars[k + 1].End()), bars, k);
  }

  /** Exactly the streams on which the attempts of reconcile cannot be seen are those in which no candle
      starts inside the minute of an earlier well-formed whole-minute one. */
  lemma AttemptsInvisibleExactly(bars: seq<Bar>)
    requires Minutes(bars)
    ensures AttemptsAgree(bars) <==> NoneInside(bars)
  {
    if NoneInside(bars) {
      forall p, entered, cursor, attempts: seq<Attempt> | InTurn(p, bars, attempts) && attempts != []
        ensures AsOne(p, entered, bars, cursor, attempts)
      {
        ReconciledAsOne(p, entered, bars, cursor, attempts);
      }
    } else {
      var k: nat, g: nat :| k < g < |bars| && bars[k].start % MINUTE == 0 && bars[k].WellFormed() && bars[g].start < bars[k].End();
      InsideDisagrees(bars, k, g);
    }
  }
}
