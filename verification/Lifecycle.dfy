// The same frozen plan watched trade by trade (lifecycle.advance_trades), and how its
// verdict relates to the candle verdict over the same trades.
module Lifecycle {
  import opened Common
  import opened Bars
  import opened Reconciliation

  // What the monitor writes on the signal.
  datatype Monitor = Monitor(cursor: int, lastId: Option<string>, entered: Option<int>,
                             tp1: Option<int>, tp2: Option<int>, verdict: Verdict, at: int)

  // The deadline of the trade path.
  function WatchDeadline(p: Plan): int {
    if p.alerted then Or(p.holding, p.expires) else TriggerEnd(p)
  }

  predicate Watchable(p: Plan, now: int, t: Trade) {
    t.receipt <= now && t.event <= now && t.event <= WatchDeadline(p)
  }

  predicate InZone(p: Plan, t: Trade) {
    p.zoneLow <= t.price <= p.zoneHigh && t.event <= TriggerEnd(p)
  }

  function First(current: Option<int>, touched: bool, event: int): Option<int> {
    if touched && current.None? then Some(event) else current
  }

  // One trade of the loop; a terminal verdict ends it.
  function Watch(p: Plan, now: int, s: Monitor, t: Trade): Monitor {
    if !s.verdict.Open? || !Watchable(p, now, t) then s
    else
      var entered := if InZone(p, t) && s.entered.None? then Some(t.event) else s.entered;
      var tp1 := entered.Some? && TargetTouched(p, t.price, t.price, p.tp1);
      var tp2 := entered.Some? && TargetTouched(p, t.price, t.price, p.tp2);
      var next := Monitor(t.event, Some(t.id), entered, First(s.tp1, tp1, t.event), First(s.tp2, tp2, t.event), Open, s.at);
      if Touches(p, t) then next.(verdict := Stop, at := t.event)
      else if tp1 && p.alerted && !p.legacy then next.(verdict := Target, at := t.event)
      else next
  }

  function WatchAll(p: Plan, now: int, s: Monitor, trades: seq<Trade>): Monitor {
    if trades == [] then s
    else Watch(p, now, WatchAll(p, now, s, trades[..|trades| - 1]), trades[|trades| - 1])
  }

  // The unread tail of the tape: after the last checked trade, and not before the cursor.
  function Unread(tape: seq<Trade>, cursor: int, lastId: Option<string>): (n: nat)
    ensures n <= |tape|
  {
    if tape == [] then 0
    else
      var t := tape[|tape| - 1];
      if lastId == Some(t.id) || t.event < cursor then |tape| else Unread(tape[..|tape| - 1], cursor, lastId)
  }

  // The walk back from the end of the tape.
  method FindUnread(tape: seq<Trade>, cursor: int, lastId: Option<string>) returns (n: nat)
    ensures n == Unread(tape, cursor, lastId)
  {
    n := |tape|;
    assert tape[..|tape|] == tape;
    while n > 0 && !(lastId == Some(tape[n - 1].id) || tape[n - 1].event < cursor)
      invariant 0 <= n <= |tape| && Unread(tape, cursor, lastId) == Unread(tape[..n], cursor, lastId)
    {
      assert tape[..n][..n - 1] == tape[..n - 1];
      n := n - 1;
    }
  }

  // The unread tail starts at n: from there on no trade is the last read one or older than the cursor, and
  // the trade before it is.
  predicate UnreadFrom(tape: seq<Trade>, cursor: int, lastId: Option<string>, n: nat) {
    && n <= |tape|
    && (forall i :: n <= i < |tape| ==> tape[i].event >= cursor && lastId != Some(tape[i].id))
    && (n > 0 ==> tape[n - 1].event < cursor || lastId == Some(tape[n - 1].id))
  }

  lemma {:induction false} UnreadIs(tape: seq<Trade>, cursor: int, lastId: Option<string>)
    ensures UnreadFrom(tape, cursor, lastId, Unread(tape, cursor, lastId))
  {
    if tape != [] {
      var last := tape[|tape| - 1];
      if lastId != Some(last.id) && last.event >= cursor {
        UnreadIs(tape[..|tape| - 1], cursor, lastId);
      }
    }
  }

  /** On a tape in time order, the unread trades are those from the cursor on that come after the last read one. */
  lemma UnreadExactly(tape: seq<Trade>, cursor: int, lastId: Option<string>, i: nat)
    requires InTimeOrder(tape) && i < |tape|
    ensures i >= Unread(tape, cursor, lastId) <==>
              tape[i].event >= cursor && forall j :: i <= j < |tape| ==> lastId != Some(tape[j].id)
  {
    UnreadIs(tape, cursor, lastId);
    var n := Unread(tape, cursor, lastId);
    assert i < n ==> tape[i].event <= tape[n - 1].event || i == n - 1;
  }

  /** advance_trades: the unread tail is found from the end and then watched forwards. */
  method AdvanceTrades(p: Plan, now: int, s: Monitor, tape: seq<Trade>) returns (r: Monitor)
    requires s.verdict.Open?
    ensures exists n: nat :: UnreadFrom(tape, s.cursor, s.lastId, n) && r == WatchAll(p, now, s, tape[n..])
  {
    var n := FindUnread(tape, s.cursor, s.lastId);
    UnreadIs(tape, s.cursor, s.lastId);
    var path := tape[n..];
    r := s;
    for i := 0 to |path|
      invariant r == WatchAll(p, now, s, path[..i]) && r.verdict.Open?
    {
      assert path[..i + 1][..i] == path[..i];
      r := Watch(p, now, r, path[i]);
      if !r.verdict.Open? {
        DecidedStays(p, now, s, path, i + 1);
        return;
      }
    }
    assert path[..|path|] == path;
  }

  lemma {:induction false} DecidedStays(p: Plan, now: int, s: Monitor, trades: seq<Trade>, k: nat)
    requires k <= |trades| && !WatchAll(p, now, s, trades[..k]).verdict.Open?
    ensures WatchAll(p, now, s, trades) == WatchAll(p, now, s, trades[..k])
    decreases |trades|
  {
    if k == |trades| {
      assert trades[..k] == trades;
    } else {
      assert trades[..|trades| - 1][..k] == trades[..k];
      DecidedStays(p, now, s, trades[..|trades| - 1], k);
    }
  }

  // What one watched trade does, told of its price and time: the entry, the two targets, then the verdict.
  lemma WatchMeans(p: Plan, now: int, s: Monitor, t: Trade)
    requires s.verdict.Open?
    ensures var r := Watch(p, now, s, t);
            var end := if p.triggerExpires.Some? && p.triggerExpires.value != 0 then p.triggerExpires.value else p.expires;
            var seen := t.receipt <= now && t.event <= now && t.event <= WatchDeadline(p);
            var atStop := if p.direction.Long? then t.price <= p.stop else t.price >= p.stop;
            var atTarget := if p.direction.Long? then t.price >= p.tp1 else t.price <= p.tp1;
            && (!seen ==> r == s)
            && (seen ==>
                  && r.cursor == t.event && r.lastId == Some(t.id)
                  && r.entered == (if s.entered.None? && p.zoneLow <= t.price <= p.zoneHigh && t.event <= end
                                   then Some(t.event) else s.entered)
                  && (r.verdict.Stop? <==> atStop)
                  && (r.verdict.Target? <==> !atStop && atTarget && r.entered.Some? && p.alerted && !p.legacy)
                  && (r.verdict.Open? || r.verdict.Stop? || r.verdict.Target?)
                  && (!r.verdict.Open? ==> r.at == t.event)
                  && r.tp1 == (if s.tp1.None? && r.entered.Some? && atTarget then Some(t.event) else s.tp1))
  {
  }

  // The first watchable trade that touches the stop stands at position k.
  ghost predicate FirstStop(p: Plan, now: int, trades: seq<Trade>, k: int) {
    && 0 <= k < |trades| && Watchable(p, now, trades[k]) && Touches(p, trades[k])
    && forall j :: 0 <= j < k && Watchable(p, now, trades[j]) ==> !Touches(p, trades[j])
  }

  // A stop verdict names the first watchable stop-touching trade; an open one means that none was watched.
  lemma {:induction false} StopVerdict(p: Plan, now: int, s: Monitor, trades: seq<Trade>)
    requires s.verdict.Open?
    ensures var r := WatchAll(p, now, s, trades);
            && (r.verdict.Stop? ==> exists i :: FirstStop(p, now, trades, i) && trades[i].event == r.at)
            && (r.verdict.Open? ==> forall i :: 0 <= i < |trades| && Watchable(p, now, trades[i]) ==> !Touches(p, trades[i]))
            && !r.verdict.Expired?
  {
    if trades != [] {
      var front := trades[..|trades| - 1];
      StopVerdict(p, now, s, front);
      var u := WatchAll(p, now, s, front);
      if u.verdict.Stop? {
        var i :| FirstStop(p, now, front, i) && front[i].event == u.at;
        assert FirstStop(p, now, trades, i) by {
          assert forall j :: 0 <= j <= i ==> trades[j] == front[j];
        }
      } else if u.verdict.Open? && Watchable(p, now, trades[|trades| - 1]) && Touches(p, trades[|trades| - 1]) {
        assert FirstStop(p, now, trades, |trades| - 1) by {
          assert forall j :: 0 <= j < |front| ==> trades[j] == front[j];
        }
      }
    }
  }

  // The first watchable trade in the zone before position k dates the entry, if any.
  ghost predicate EntryDated(p: Plan, now: int, trades: seq<Trade>, k: nat, entered: Option<int>)
    requires k <= |trades|
  {
    if entered.None? then forall j :: 0 <= j < k && Watchable(p, now, trades[j]) ==> !InZone(p, trades[j])
    else
      exists i :: 0 <= i < k && Watchable(p, now, trades[i]) && InZone(p, trades[i]) && trades[i].event == entered.value
                  && forall j :: 0 <= j < i && Watchable(p, now, trades[j]) ==> !InZone(p, trades[j])
  }

  /** A plan not yet entered is entered by the first watched trade in the zone, and while it has no
      verdict every watchable trade has been looked at. A target needs an entry no later than the
      trade that reaches it, an alerted plan and a current profile. */
  lemma {:induction false} EntryIsTheFirstTrade(p: Plan, now: int, s: Monitor, trades: seq<Trade>)
    requires s.verdict.Open? && s.entered.None?
    ensures var r := WatchAll(p, now, s, trades);
            && (r.verdict.Open? ==> EntryDated(p, now, trades, |trades|, r.entered))
            && (!r.verdict.Open? ==>
                  exists k :: 0 <= k < |trades| && Watchable(p, now, trades[k]) && trades[k].event == r.at
                              && EntryDated(p, now, trades, k + 1, r.entered)
                              && (r.verdict.Target? ==>
                                    p.alerted && !p.legacy && r.entered.Some?
                                    && TargetTouched(p, trades[k].price, trades[k].price, p.tp1)))
  {
    if trades != [] {
      var front, last := trades[..|trades| - 1], |trades| - 1;
      EntryIsTheFirstTrade(p, now, s, front);
      var u, r := WatchAll(p, now, s, front), WatchAll(p, now, s, trades);
      if u.verdict.Open? {
        DatedFurther(p, now, trades, last, u.entered);
        assert !r.verdict.Open? ==> trades[last].event == r.at;
      } else {
        var k :| 0 <= k < |front| && Watchable(p, now, front[k]) && front[k].event == u.at
                 && EntryDated(p, now, front, k + 1, u.entered)
                 && (u.verdict.Target? ==>
                       p.alerted && !p.legacy && u.entered.Some?
                       && TargetTouched(p, front[k].price, front[k].price, p.tp1));
        DatedSame(p, now, trades, last, k + 1, u.entered);
        assert trades[k] == front[k];
      }
    }
  }

  // The same trades at the front of a longer list date the same entry.
  lemma DatedSame(p: Plan, now: int, trades: seq<Trade>, m: nat, k: nat, entered: Option<int>)
    requires k <= m <= |trades| && EntryDated(p, now, trades[..m], k, entered)
    ensures EntryDated(p, now, trades, k, entered)
  {
    assert forall j :: 0 <= j < m ==> trades[..m][j] == trades[j];
    if entered.Some? {
      var i :| 0 <= i < k && Watchable(p, now, trades[..m][i]) && InZone(p, trades[..m][i]) && trades[..m][i].event == entered.value
               && forall j :: 0 <= j < i && Watchable(p, now, trades[..m][j]) ==> !InZone(p, trades[..m][j]);
      assert trades[i].event == entered.value;
    }
  }

  // One more trade.
  lemma DatedFurther(p: Plan, now: int, trades: seq<Trade>, m: nat, entered: Option<int>)
    requires m < |trades| && EntryDated(p, now, trades[..m], m, entered)
    ensures var entering := Watchable(p, now, trades[m]) && InZone(p, trades[m]) && entered.None?;
            EntryDated(p, now, trades, m + 1, if entering then Some(trades[m].event) else entered)
  {
    DatedSame(p, now, trades, m, m, entered);
    if entered.Some? {
      var i :| 0 <= i < m && Watchable(p, now, trades[i]) && InZone(p, trades[i]) && trades[i].event == entered.value
               && forall j :: 0 <= j < i && Watchable(p, now, trades[j]) ==> !InZone(p, trades[j]);
      assert trades[i].event == entered.value;
    }
  }

  // The candle deadline never outlives the trade deadline, which for an alerted plan is the same.
  lemma CandlesEndFirst(p: Plan)
    ensures Deadline(p) <= WatchDeadline(p) && (p.alerted ==> Deadline(p) == WatchDeadline(p))
    ensures !p.alerted ==>
              WatchDeadline(p) ==
              if p.triggerExpires.Some? && p.triggerExpires.value != 0 then p.triggerExpires.value else p.expires
  {
  }

  /** Whatever trades the monitor watches, and whatever it had entered before, its stop is never dated
      in a minute that the candles have cleared: every checked minute, or those before the candles' own
      stop. A minute without trades may have any candle. */
  lemma NoStopBehindTheCandles(p: Plan, ticks: seq<Trade>, entered: Option<int>, bars: seq<Bar>, cursor: int, until: int,
                               now: int, s: Monitor, watched: seq<Trade>)
    requires AllContain(ticks, bars) && s.verdict.Open?
    requires forall t :: t in watched ==> t in ticks
    ensures var r, w := Advance(p, entered, bars, cursor, until), WatchAll(p, now, s, watched);
            w.verdict.Stop? ==> !(Floor(cursor) <= w.at < StopFree(cursor, r))
  {
    CandlesNeverHideAStop(p, ticks, entered, bars, cursor, until);
    StopVerdict(p, now, s, watched);
    var w := WatchAll(p, now, s, watched);
    if w.verdict.Stop? {
      var i :| FirstStop(p, now, watched, i) && watched[i].event == w.at;
      assert watched[i] in ticks;
      var k :| 0 <= k < |ticks| && ticks[k] == watched[i];
      assert Touches(p, ticks[k]);
    }
  }

  predicate InTimeOrder(trades: seq<Trade>) {
    forall i, j :: 0 <= i < j < |trades| ==> trades[i].event <= trades[j].event
  }

  // A trade at the stop bounds the time of the first one.
  lemma FirstStopIsEarly(p: Plan, now: int, trades: seq<Trade>, t: Trade, i: int)
    requires InTimeOrder(trades) && t in trades && Watchable(p, now, t) && Touches(p, t) && FirstStop(p, now, trades, i)
    ensures trades[i].event <= t.event
  {
    var k :| 0 <= k < |trades| && trades[k] == t;
    assert i <= k;
  }

  /** When the candles say STOP, in a candle whose extremes were traded, a monitor that has watched, in
      time order, every trade up to the end of that candle has a verdict, and if it is a stop, it lies
      in that very candle. */
  lemma StopSeenByTheMonitor(p: Plan, ticks: seq<Trade>, entered: Option<int>, bars: seq<Bar>, cursor: int, until: int,
                             now: int, s: Monitor, watched: seq<Trade>)
    requires AllContain(ticks, bars) && s.verdict.Open? && InTimeOrder(watched)
    requires Advance(p, entered, bars, cursor, until).verdict.Stop?
    requires AttainsAt(ticks, bars, Advance(p, entered, bars, cursor, until).effective)
    requires forall t :: t in watched ==> t in ticks && Floor(cursor) <= t.event
    requires forall t :: t in ticks && In(t, Floor(cursor), Advance(p, entered, bars, cursor, until).effective) ==>
               t in watched && t.receipt <= now && t.event <= now
    ensures var r, w := Advance(p, entered, bars, cursor, until), WatchAll(p, now, s, watched);
            && !w.verdict.Open?
            && (w.verdict.Stop? ==> r.effective - MINUTE <= w.at < r.effective)
  {
    var r := Advance(p, entered, bars, cursor, until);
    var t := StopTrade(p, ticks, entered, bars, cursor, until);
    assert t in watched && Watchable(p, now, t);
    StopVerdict(p, now, s, watched);
    assert exists j :: 0 <= j < |watched| && watched[j] == t;
    if WatchAll(p, now, s, watched).verdict.Stop? {
      NoStopBehindTheCandles(p, ticks, entered, bars, cursor, until, now, s, watched);
      var i :| FirstStop(p, now, watched, i) && watched[i].event == WatchAll(p, now, s, watched).at;
      assert watched[i] in watched;
      FirstStopIsEarly(p, now, watched, t, i);
    }
  }

  // A trade at the stop in the stop's candle, in time for both deadlines.
  lemma StopTrade(p: Plan, ticks: seq<Trade>, entered: Option<int>, bars: seq<Bar>, cursor: int, until: int) returns (t: Trade)
    requires AllContain(ticks, bars) && Advance(p, entered, bars, cursor, until).verdict.Stop?
    requires AttainsAt(ticks, bars, Advance(p, entered, bars, cursor, until).effective)
    ensures var r := Advance(p, entered, bars, cursor, until);
            && t in ticks && Floor(cursor) <= r.effective - MINUTE && In(t, r.effective - MINUTE, r.effective)
            && Touches(p, t) && t.event <= WatchDeadline(p)
  {
    var r := Advance(p, entered, bars, cursor, until);
    CandlesNeverHideAStop(p, ticks, entered, bars, cursor, until);
    CandlesEndFirst(p);
    StopWithinDeadline(p, entered, bars, cursor, until);
    var k :| 0 <= k < |ticks| && In(ticks[k], r.effective - MINUTE, r.effective) && Touches(p, ticks[k]);
    t := ticks[k];
  }

  lemma StopWithinDeadline(p: Plan, entered: Option<int>, bars: seq<Bar>, cursor: int, until: int)
    requires Advance(p, entered, bars, cursor, until).verdict.Stop?
    ensures Advance(p, entered, bars, cursor, until).effective <= Deadline(p)
  {
    WalkAdvances(p, cursor, Limit(p, until), Begin(cursor, entered), SortByStart(bars));
    HitsWhereItStands(p, cursor, Limit(p, until), Begin(cursor, entered), SortByStart(bars));
  }

  // ---------------------------------------------------------------- the deadline's own minute

  // No trade at the stop lies between the cursor's minute and the deadline of an expired plan.
  ghost predicate ExpiryIsStopFree(p: Plan) {
    forall ticks, entered, bars, cursor, until ::
      AllContain(ticks, bars) && Advance(p, entered, bars, cursor, until).verdict.Expired? ==>
        Untouched(p, ticks, Floor(cursor), Deadline(p))
  }

  // Nor does any monitor over those trades date a stop there.
  ghost predicate ExpiryIsNeverOverruled(p: Plan) {
    forall ticks, entered, bars, cursor, until, now, s: Monitor, watched: seq<Trade> ::
      AllContain(ticks, bars) && Advance(p, entered, bars, cursor, until).verdict.Expired? && s.verdict.Open?
      && (forall t :: t in watched ==> t in ticks) && WatchAll(p, now, s, watched).verdict.Stop? ==>
        !(Floor(cursor) <= WatchAll(p, now, s, watched).at < Deadline(p))
  }

  lemma WholeDeadline(p: Plan)
    ensures Floor(Deadline(p)) <= Deadline(p)
    ensures Floor(Floor(Deadline(p))) == Floor(Deadline(p))
    ensures Floor(Deadline(p)) == Deadline(p) <==> Deadline(p) % MINUTE == 0
  {
  }

  // A monitor's stop is one of the trades at the stop.
  lemma OverruledByATrade(p: Plan, ticks: seq<Trade>, now: int, s: Monitor, watched: seq<Trade>, start: int, end: int)
    requires s.verdict.Open? && (forall t :: t in watched ==> t in ticks) && Untouched(p, ticks, start, end)
    requires WatchAll(p, now, s, watched).verdict.Stop?
    ensures !(start <= WatchAll(p, now, s, watched).at < end)
  {
    StopVerdict(p, now, s, watched);
    var i :| FirstStop(p, now, watched, i) && watched[i].event == WatchAll(p, now, s, watched).at;
    assert watched[i] in ticks;
    var k :| 0 <= k < |ticks| && ticks[k] == watched[i];
    assert Touches(p, ticks[k]);
  }

  function LateTrade(p: Plan): Trade {
    Trade("late", "", "", Floor(Deadline(p)), Floor(Deadline(p)), true, p.stop, 1.0)
  }

  const WAITING := Monitor(0, None, None, None, None, Open, 0)

  // Without any candle, a cursor in the deadline's minute expires beside a trade at the stop there.
  lemma LateStop(p: Plan)
    requires Deadline(p) % MINUTE != 0
    ensures var t, cursor := LateTrade(p), Floor(Deadline(p));
            && AllContain([t], []) && Advance(p, None, [], cursor, Deadline(p)).verdict.Expired?
            && !Untouched(p, [t], Floor(cursor), Deadline(p))
            && var w := WatchAll(p, t.receipt, WAITING, [t]); w.verdict.Stop? && Floor(cursor) <= w.at < Deadline(p)
  {
    var t, cursor := LateTrade(p), Floor(Deadline(p));
    WholeDeadline(p);
    CandlesEndFirst(p);
    NothingLeft(p, None, cursor);
    assert In([t][0], Floor(cursor), Deadline(p)) && Touches(p, [t][0]);
    assert [t][..0] == [];
    assert WatchAll(p, t.receipt, WAITING, [t][..0]) == WAITING;
  }

  /** EXPIRED rules out a stop before the deadline, for every trade and every monitor, exactly when the
      deadline is on a whole minute: no candle is asked about the minute that the deadline cuts. */
  lemma ExpiryIsFinalExactly(p: Plan)
    ensures ExpiryIsStopFree(p) <==> Deadline(p) % MINUTE == 0
    ensures ExpiryIsNeverOverruled(p) <==> Deadline(p) % MINUTE == 0
  {
    if Deadline(p) % MINUTE == 0 {
      WholeDeadline(p);
      ExpiryOnTheMinute(p);
    } else {
      LateStop(p);
      LateStopOverrules(p);
    }
  }

  lemma ExpiryOnTheMinute(p: Plan)
    requires Floor(Deadline(p)) == Deadline(p)
    ensures ExpiryIsStopFree(p) && ExpiryIsNeverOverruled(p)
  {
    forall ticks, entered, bars, cursor, until |
      AllContain(ticks, bars) && Advance(p, entered, bars, cursor, until).verdict.Expired?
      ensures Untouched(p, ticks, Floor(cursor), Deadline(p))
    {
      ExpiryMeans(p, ticks, entered, bars, cursor, until);
    }
    forall ticks, entered, bars, cursor, until, now, s: Monitor, watched: seq<Trade> |
      AllContain(ticks, bars) && Advance(p, entered, bars, cursor, until).verdict.Expired? && s.verdict.Open?
      && (forall t :: t in watched ==> t in ticks) && WatchAll(p, now, s, watched).verdict.Stop?
      ensures !(Floor(cursor) <= WatchAll(p, now, s, watched).at < Deadline(p))
    {
      OverruledByATrade(p, ticks, now, s, watched, Floor(cursor), Deadline(p));
    }
  }

  lemma LateStopOverrules(p: Plan)
    requires Deadline(p) % MINUTE != 0
    ensures !ExpiryIsNeverOverruled(p)
  {
    var t, cursor := LateTrade(p), Floor(Deadline(p));
    LateStop(p);
    assert AllContain([t], []) && Advance(p, None, [], cursor, Deadline(p)).verdict.Expired?;
    assert WatchAll(p, t.receipt, WAITING, [t]).verdict.Stop?;
  }
}
