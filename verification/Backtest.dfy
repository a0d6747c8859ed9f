// A hypothetical position filled from printed trades: conservative participation, slippage, fees,
// funding and a margin-stress mark. An amount below 1e-10 counts as nothing left.
module Backtest {
  import opened Common

  const DUST := 0.0000000001

  datatype Reason = MissedFill | StopHit | TakeProfit | TimeStop | MarginStress

  datatype Fill = Fill(at: int, entry: bool, quantity: real, price: real)
  {
    function Notional(): (r: real)
      ensures quantity >= 0.0 && price > 0.0 ==> r >= 0.0 && (quantity > 0.0 ==> r > 0.0)
    {
      quantity * price
    }
  }

  // The signal and the assumptions frozen with it.
  datatype Setup = Setup(symbol: string, direction: Direction, entry: real, stop: real, tp1: real, zoneLow: real,
                         zoneHigh: real, created: int, expires: int, requested: real, latency: int,
                         participation: real, window: int, horizon: int, maximum: int, feeBps: real, slippageBps: real)
  {
    // The check made when the position is built.
    predicate Accepted() {
      requested > 0.0 && 0 < horizon <= maximum
    }

    // A share of each print, and a slippage that leaves prices positive.
    predicate Sane() {
      participation >= 0.0 && 0.0 <= slippageBps < 10000.0
    }

    function Ready(): int {
      created + latency
    }

    // sign * x.
    function Signed(x: real): real {
      if direction.Long? then x else -x
    }
  }

  datatype Position = Position(quantity: real, entryValue: real, fees: real, funding: real, exitValue: real,
                               exited: real, reason: Option<Reason>, closed: Option<int>, fills: seq<Fill>,
                               mfe: real, mae: real, funded: set<int>)
  {
    function Remaining(): real {
      Max(0.0, quantity - exited)
    }

    // The average entry price, or the planned one.
    function Entry(s: Setup): real {
      if quantity != 0.0 then entryValue / quantity else s.entry
    }
  }

  const FLAT := Position(0.0, 0.0, 0.0, 0.0, 0.0, 0.0, None, None, [], 0.0, 0.0, {})

  // ---------------------------------------------------------------- one printed trade

  // price * (1 + fraction), multiplied out.
  function Moved(price: real, fraction: real): (r: real)
    ensures price > 0.0 && fraction > -1.0 ==> r > 0.0
    ensures price > 0.0 && fraction >= 0.0 ==> r >= price
    ensures price > 0.0 && fraction <= 0.0 ==> r <= price
  {
    var r := price + price * fraction;
    MovedBounds(price, fraction, price * fraction);
    r
  }

  lemma MovedBounds(price: real, fraction: real, move: real)
    requires move == price * fraction
    ensures price > 0.0 && fraction > -1.0 ==> move > -price
    ensures price > 0.0 && fraction >= 0.0 ==> move >= 0.0
    ensures price > 0.0 && fraction <= 0.0 ==> move <= 0.0
  {
    if price > 0.0 && fraction > -1.0 {
      assert price * (fraction + 1.0) > 0.0;
    }
  }

  function EntryPrice(s: Setup, price: real): real {
    Moved(price, s.Signed(s.slippageBps / 10000.0))
  }

  function ExitPrice(s: Setup, price: real): real {
    Moved(price, -s.Signed(s.slippageBps / 10000.0))
  }

  function Fee(s: Setup, value: real): real {
    value * s.feeBps / 10000.0
  }

  // Best and worst excursion in units of the planned risk.
  function Excursion(s: Setup, p: Position, price: real): Position {
    if p.quantity == 0.0 then p
    else
      var distance := Abs(s.entry - s.stop);
      var x := if distance != 0.0 then s.Signed(price - p.Entry(s)) / distance else 0.0;
      p.(mfe := Max(p.mfe, x), mae := Min(p.mae, x))
  }

  predicate Enters(s: Setup, p: Position, t: Trade) {
    && t.event <= (if s.Ready() + s.window <= s.expires then s.Ready() + s.window else s.expires)
    && p.reason.None? && p.quantity < s.requested && s.zoneLow <= t.price <= s.zoneHigh
  }

  function EntryFill(s: Setup, p: Position, t: Trade): Fill {
    Fill(t.event, true, Min(s.requested - p.quantity, t.size * s.participation), EntryPrice(s, t.price))
  }

  function Enter(s: Setup, p: Position, t: Trade): Position {
    var f := EntryFill(s, p, t);
    p.(quantity := p.quantity + f.quantity, entryValue := p.entryValue + f.Notional(),
       fees := p.fees + Fee(s, f.Notional()), fills := p.fills + [f])
  }

  function ExitReason(s: Setup, t: Trade): Option<Reason> {
    if s.Signed(t.price - s.stop) <= 0.0 then Some(StopHit)
    else if s.Signed(t.price - s.tp1) >= 0.0 then Some(TakeProfit)
    else if t.event >= s.created + s.horizon then Some(TimeStop) else None
  }

  function ExitFill(s: Setup, p: Position, t: Trade): Fill {
    Fill(t.event, false, Min(p.Remaining(), t.size * s.participation), ExitPrice(s, t.price))
  }

  function Leave(s: Setup, p: Position, t: Trade): Position {
    var f := ExitFill(s, p, t);
    var r := p.(exitValue := p.exitValue + f.Notional(), exited := p.exited + f.quantity,
                fees := p.fees + Fee(s, f.Notional()), fills := p.fills + [f]);
    r.(closed := if r.Remaining() < DUST then Some(t.event) else p.closed)
  }

  predicate Ignores(s: Setup, p: Position, t: Trade) {
    t.symbol != s.symbol || p.closed.Some? || t.event < s.Ready()
  }

  function OnTrade(s: Setup, p: Position, t: Trade): Position {
    if Ignores(s, p, t) then p
    else
      var seen := Excursion(s, p, t.price);
      if Enters(s, p, t) then Enter(s, seen, t)
      else if p.quantity == 0.0 then
        if t.event > s.Ready() + s.window then seen.(reason := Some(MissedFill), closed := Some(t.event)) else seen
      else
        var judged := if p.reason.None? then seen.(reason := ExitReason(s, t)) else seen;
        if judged.reason.Some? then Leave(s, judged, t) else judged
  }

  // ---------------------------------------------------------------- funding and marks

  function OnFunding(s: Setup, p: Position, at: int, rate: real, mark: real): Position {
    if p.quantity != 0.0 && p.Remaining() != 0.0 && p.fills != [] && at >= p.fills[0].at && at !in p.funded
    then p.(funding := p.funding + s.Signed(p.Remaining() * mark * rate), funded := p.funded + {at}) else p
  }

  function OnMark(s: Setup, p: Position, mark: real, leverage: real, maintenance: real): Position
    requires leverage != 0.0 && (p.Remaining() != 0.0 ==> p.Entry(s) != 0.0)
  {
    if p.Remaining() != 0.0 && s.Signed(mark - p.Entry(s)) / p.Entry(s) <= -(1.0 / leverage - maintenance)
    then p.(reason := Some(MarginStress)) else p
  }

  // ---------------------------------------------------------------- what the fills add up to

  function Filled(fills: seq<Fill>, entry: bool): real {
    if fills == [] then 0.0
    else
      var last := fills[|fills| - 1];
      Filled(fills[..|fills| - 1], entry) + if last.entry == entry then last.quantity else 0.0
  }

  function Value(fills: seq<Fill>, entry: bool): real {
    if fills == [] then 0.0
    else
      var last := fills[|fills| - 1];
      Value(fills[..|fills| - 1], entry) + if last.entry == entry then last.Notional() else 0.0
  }

  // No entry stands behind an exit.
  predicate EntriesFirst(fills: seq<Fill>) {
    forall i, j :: 0 <= i < j < |fills| && fills[j].entry ==> fills[i].entry
  }

  // The books agree with the fills.
  ghost predicate Balanced(s: Setup, p: Position) {
    && p.quantity == Filled(p.fills, true) && p.entryValue == Value(p.fills, true)
    && p.exited == Filled(p.fills, false) && p.exitValue == Value(p.fills, false)
    && p.fees == Fee(s, p.entryValue + p.exitValue)
  }

  predicate Bounded(s: Setup, p: Position) {
    && 0.0 <= p.exited <= p.quantity <= s.requested
    && p.entryValue >= 0.0 && (p.quantity > 0.0 ==> p.entryValue > 0.0)
    && (p.closed.None? ==> p.exited == 0.0 || p.quantity - p.exited >= DUST)
    && p.mae <= 0.0 <= p.mfe
  }

  predicate Ordered(p: Position) {
    && EntriesFirst(p.fills)
    && ((exists i :: 0 <= i < |p.fills| && !p.fills[i].entry) ==> p.reason.Some?)
    && (p.closed.Some? ==> p.reason.Some?)
    && (p.reason == Some(MissedFill) ==> p.quantity == 0.0 && p.closed.Some?)
  }

  ghost predicate Consistent(s: Setup, p: Position) {
    Balanced(s, p) && Bounded(s, p) && Ordered(p)
  }

  // p with one more fill and nothing else changed in the books.
  ghost predicate OneFill(s: Setup, p: Position, r: Position, f: Fill) {
    && r.fills == p.fills + [f]
    && r.quantity == (if f.entry then p.quantity + f.quantity else p.quantity)
    && r.exited == (if f.entry then p.exited else p.exited + f.quantity)
    && r.entryValue == (if f.entry then p.entryValue + f.Notional() else p.entryValue)
    && r.exitValue == (if f.entry then p.exitValue else p.exitValue + f.Notional())
    && r.fees == p.fees + Fee(s, f.Notional())
  }

  lemma FeeAdds(s: Setup, a: real, b: real)
    ensures Fee(s, a + b) == Fee(s, a) + Fee(s, b)
  {
    assert (a + b) * s.feeBps == a * s.feeBps + b * s.feeBps;
  }

  lemma OneFillKeepsBalance(s: Setup, p: Position, r: Position, f: Fill)
    requires Balanced(s, p) && OneFill(s, p, r, f)
    ensures Balanced(s, r)
  {
    assert r.fills[..|r.fills| - 1] == p.fills;
    FeeAdds(s, p.entryValue + p.exitValue, f.Notional());
    assert p.entryValue + p.exitValue + f.Notional() == r.entryValue + r.exitValue;
  }

  lemma PositiveProduct(a: real, b: real)
    requires a >= 0.0 && b > 0.0
    ensures a * b >= 0.0
    ensures a > 0.0 ==> a * b > 0.0
  {
  }

  lemma PositiveFill(s: Setup, p: Position, t: Trade)
    requires s.Sane() && t.price > 0.0 && t.size > 0.0 && p.quantity <= s.requested
    ensures var f := EntryFill(s, p, t);
            && 0.0 <= f.quantity <= t.size * s.participation && f.quantity <= s.requested - p.quantity
            && f.Notional() >= 0.0 && (f.quantity > 0.0 ==> f.Notional() > 0.0)
  {
    PositiveProduct(s.participation, t.size);
    assert EntryFill(s, p, t).price > 0.0;
  }

  lemma EnterKeeps(s: Setup, p: Position, t: Trade)
    requires s.Sane() && t.price > 0.0 && t.size > 0.0
    requires Consistent(s, p) && p.closed.None? && p.reason.None? && p.quantity < s.requested
    ensures Consistent(s, Enter(s, p, t))
    ensures var q := Enter(s, p, t).quantity - p.quantity; 0.0 <= q <= t.size * s.participation
  {
    var r, f := Enter(s, p, t), EntryFill(s, p, t);
    PositiveFill(s, p, t);
    OneFillKeepsBalance(s, p, r, f);
    NoExitYet(p.fills);
  }

  // Without an exit fill nothing has been exited.
  lemma {:induction false} NoExitYet(fills: seq<Fill>)
    ensures (forall i :: 0 <= i < |fills| ==> fills[i].entry) ==> Filled(fills, false) == 0.0
  {
    if fills != [] {
      NoExitYet(fills[..|fills| - 1]);
    }
  }

  lemma LeaveKeeps(s: Setup, p: Position, t: Trade)
    requires s.Sane() && t.price > 0.0 && t.size > 0.0
    requires Consistent(s, p) && p.closed.None? && p.reason.Some?
    ensures Consistent(s, Leave(s, p, t))
    ensures var q := Leave(s, p, t).exited - p.exited; 0.0 <= q <= t.size * s.participation
  {
    PositiveProduct(s.participation, t.size);
    OneFillKeepsBalance(s, p, Leave(s, p, t), ExitFill(s, p, t));
  }

  /** A trade keeps the books, adds at most one fill, and never more than its participation. */
  lemma TradeKeeps(s: Setup, p: Position, t: Trade)
    requires s.Sane() && t.price > 0.0 && t.size > 0.0 && Consistent(s, p)
    ensures Consistent(s, OnTrade(s, p, t))
    ensures var r := OnTrade(s, p, t);
            && (r.fills == p.fills || exists f :: r.fills == p.fills + [f] && f.at == t.event
                                                  && 0.0 <= f.quantity <= t.size * s.participation)
            && (p.closed.Some? ==> r == p)
  {
    if !Ignores(s, p, t) {
      var seen := Excursion(s, p, t.price);
      assert Consistent(s, seen);
      var judged := if p.reason.None? then seen.(reason := ExitReason(s, t)) else seen;
      if Enters(s, p, t) {
        EnterKeeps(s, seen, t);
      } else if p.quantity != 0.0 && judged.reason.Some? {
        LeaveKeeps(s, judged, t);
      }
    }
  }

  /** Fills are conservative: never better than the print they are taken from, entries only inside the
      zone and the fill window of an unexpired plan, and exits only for a reason that stands. */
  lemma FillsAreConservative(s: Setup, p: Position, t: Trade)
    requires s.Sane() && t.price > 0.0 && OnTrade(s, p, t).fills != p.fills
    ensures var r := OnTrade(s, p, t);
            && r.fills == p.fills + [r.fills[|p.fills|]]
            && var f := r.fills[|p.fills|];
               && f.at == t.event && t.symbol == s.symbol && s.Ready() <= t.event && p.closed.None?
               && (f.entry ==>
                     && s.Signed(f.price - t.price) >= 0.0 && s.zoneLow <= t.price <= s.zoneHigh
                     && t.event <= s.Ready() + s.window && t.event <= s.expires && p.reason.None?)
               && (!f.entry ==>
                     && s.Signed(t.price - f.price) >= 0.0 && p.quantity != 0.0
                     && (p.reason.Some? || s.Signed(t.price - s.stop) <= 0.0 || s.Signed(t.price - s.tp1) >= 0.0
                         || t.event >= s.created + s.horizon))
  {
    assert s.slippageBps / 10000.0 >= 0.0;
  }

  /** Slippage in basis points always against the position: a long pays it on entry and loses it on exit, a
      short the other way round. */
  lemma SlippageIsAgainst(s: Setup, price: real)
    ensures EntryPrice(s, price) * 10000.0 ==
            price * if s.direction.Long? then 10000.0 + s.slippageBps else 10000.0 - s.slippageBps
    ensures ExitPrice(s, price) * 10000.0 ==
            price * if s.direction.Long? then 10000.0 - s.slippageBps else 10000.0 + s.slippageBps
  {
    var share := s.slippageBps / 10000.0;
    assert share * 10000.0 == s.slippageBps;
    assert price * share * 10000.0 == price * s.slippageBps;
    assert price * (-share) == -(price * share);
  }

  // The print takes the position in, or takes it out, told without signs.
  predicate EntryPrint(s: Setup, p: Position, t: Trade) {
    && p.reason.None? && p.quantity < s.requested && s.zoneLow <= t.price <= s.zoneHigh
    && t.event <= s.created + s.latency + s.window && t.event <= s.expires
  }

  predicate ExitPrint(s: Setup, p: Position, t: Trade) {
    || p.reason.Some?
    || (if s.direction.Long? then t.price <= s.stop || t.price >= s.tp1 else t.price >= s.stop || t.price <= s.tp1)
    || t.event >= s.created + s.horizon
  }

  /** Fills come exactly when they should: an open position of the symbol, past its latency, takes a print in
      while it may still enter, and otherwise out when it has a reason to leave; nothing else is a fill. */
  lemma FillsExactly(s: Setup, p: Position, t: Trade)
    ensures var r := OnTrade(s, p, t);
            var open := t.symbol == s.symbol && p.closed.None? && t.event >= s.created + s.latency;
            && (r.fills != p.fills <==> open && (EntryPrint(s, p, t) || (p.quantity != 0.0 && ExitPrint(s, p, t))))
            && (r.fills != p.fills ==> |r.fills| == |p.fills| + 1 && r.fills[|p.fills|].entry == EntryPrint(s, p, t))
  {
  }

  /** The reason of the first exit: the stop before the target, the target before the time. */
  lemma ReasonMeans(s: Setup, t: Trade)
    ensures var stop := if s.direction.Long? then t.price <= s.stop else t.price >= s.stop;
            var target := if s.direction.Long? then t.price >= s.tp1 else t.price <= s.tp1;
            ExitReason(s, t) == if stop then Some(StopHit) else if target then Some(TakeProfit)
                                else if t.event >= s.created + s.horizon then Some(TimeStop) else None
  {
  }

  /** Funding is paid once per timestamp on what is left of an entered position: a long pays the rate on its
      value, a short receives it. */
  lemma FundingMeans(s: Setup, p: Position, at: int, rate: real, mark: real)
    requires Consistent(s, p)
    ensures var r := OnFunding(s, p, at, rate, mark);
            var due := p.exited < p.quantity && p.fills != [] && p.fills[0].at <= at && at !in p.funded;
            var payment := (p.quantity - p.exited) * mark * rate;
            && r.funding == (if !due then p.funding else if s.direction.Long? then p.funding + payment else p.funding - payment)
            && r.funded == (if due then p.funded + {at} else p.funded)
            && r.(funding := p.funding, funded := p.funded) == p
  {
  }

  /** A mark is margin stress exactly when the loss on what is left, in units of the entry, reaches the margin:
      what the leverage leaves less the maintenance. */
  lemma StressMeans(s: Setup, p: Position, mark: real, leverage: real, maintenance: real)
    requires leverage != 0.0 && p.Remaining() > 0.0 && p.Entry(s) > 0.0
    ensures var entry := p.Entry(s);
            var loss := if s.direction.Long? then entry - mark else mark - entry;
            OnMark(s, p, mark, leverage, maintenance) ==
            if loss >= (1.0 / leverage - maintenance) * entry then p.(reason := Some(MarginStress)) else p
  {
    var entry, margin := p.Entry(s), 1.0 / leverage - maintenance;
    var gain := s.Signed(mark - entry);
    QuotientOrder(gain, entry, -margin);
    assert -margin * entry == -(margin * entry);
  }

  lemma QuotientOrder(x: real, y: real, m: real)
    requires y > 0.0
    ensures x / y <= m <==> x <= m * y
  {
    var q := x / y;
    assert q * y == x;
    if q <= m {
      assert (m - q) * y >= 0.0;
    } else {
      assert (q - m) * y > 0.0;
    }
  }

  // ---------------------------------------------------------------- whole runs

  datatype Event =
    | Traded(trade: Trade)
    | Funded(at: int, rate: real, mark: real)
    | Marked(price: real, leverage: real, maintenance: real)

  // Trades carry positive prices and sizes, and a leverage is a divisor.
  predicate Real(e: Event) {
    match e
    case Traded(t) => t.price > 0.0 && t.size > 0.0
    case Funded(_, _, _) => true
    case Marked(_, leverage, _) => leverage != 0.0
  }

  lemma PositiveQuotient(a: real, b: real)
    requires a > 0.0 && b > 0.0
    ensures a / b > 0.0
  {
  }

  lemma EntryIsPositive(s: Setup, p: Position)
    requires Bounded(s, p)
    ensures p.Remaining() != 0.0 ==> p.Entry(s) > 0.0
  {
    if p.Remaining() != 0.0 {
      PositiveQuotient(p.entryValue, p.quantity);
    }
  }

  ghost function Step(s: Setup, p: Position, e: Event): Position
    requires Bounded(s, p) && Real(e)
  {
    match e
    case Traded(t) => OnTrade(s, p, t)
    case Funded(at, rate, mark) => OnFunding(s, p, at, rate, mark)
    case Marked(price, leverage, maintenance) =>
      EntryIsPositive(s, p);
      OnMark(s, p, price, leverage, maintenance)
  }

  lemma StepKeeps(s: Setup, p: Position, e: Event)
    requires s.Sane() && Consistent(s, p) && Real(e)
    ensures Consistent(s, Step(s, p, e))
  {
    if e.Traded? {
      TradeKeeps(s, p, e.trade);
    }
  }

  /** Over every interleaving of trades, funding and marks: 0 <= exited <= quantity <= requested,
      the values and fees are those of the recorded fills, and all entries precede all exits. */
  ghost function Run(s: Setup, events: seq<Event>): (r: Position)
    requires s.Accepted() && s.Sane() && forall i :: 0 <= i < |events| ==> Real(events[i])
    ensures Consistent(s, r)
  {
    if events == [] then FLAT
    else
      var before := Run(s, events[..|events| - 1]);
      StepKeeps(s, before, events[|events| - 1]);
      Step(s, before, events[|events| - 1])
  }

  // ---------------------------------------------------------------- after the close

  // Everything the profit and the fills depend on.
  predicate SameBooks(p: Position, r: Position) {
    p.(reason := r.reason, funding := r.funding, funded := r.funded) == r
  }

  ghost predicate Final(s: Setup, p: Position)
    requires Bounded(s, p)
  {
    forall e :: Real(e) ==> Step(s, p, e) == p
  }

  /** Once closed, no trade reopens a position and its fills, values and fees are settled. */
  lemma {:induction false} ClosedBooksAreSettled(s: Setup, events: seq<Event>, more: seq<Event>)
    requires s.Accepted() && s.Sane()
    requires forall i :: 0 <= i < |events + more| ==> Real((events + more)[i])
    requires forall i :: 0 <= i < |events| ==> Real(events[i])
    requires Run(s, events).closed.Some?
    ensures SameBooks(Run(s, events), Run(s, events + more))
  {
    if more == [] {
      assert events + more == events;
    } else {
      var front := more[..|more| - 1];
      assert (events + more)[..|events + more| - 1] == events + front;
      assert forall i :: 0 <= i < |events + front| ==> Real((events + more)[i]) && (events + front)[i] == (events + more)[i];
      ClosedBooksAreSettled(s, events, front);
    }
  }

  /** A closed position that filled is final exactly when nothing at all is left of it: a rest
      below 1e-10 closes it too, and then funding still accrues. */
  lemma FinalExactlyWithoutDust(s: Setup, p: Position)
    requires Consistent(s, p) && p.closed.Some? && p.fills != []
    ensures Final(s, p) <==> p.Remaining() == 0.0
  {
    if p.Remaining() != 0.0 {
      var at := NewTime(p.funded, p.fills[0].at);
      var e := Funded(at, 1.0, 1.0);
      assert Real(e);
      assert at in Step(s, p, e).funded;
    }
  }

  // Some time at or after a start that a finite set does not hold.
  lemma {:induction false} NewTime(times: set<int>, start: int) returns (at: int)
    ensures at >= start && at !in times
    decreases |times|
  {
    if start !in times {
      at := start;
    } else {
      at := NewTime(times - {start}, start + 1);
    }
  }

  // A setup that can be filled at one price and stopped at another.
  predicate Tradable(s: Setup, entry: real, stopped: real) {
    && s.Accepted() && s.Sane() && s.participation > 0.0 && s.window >= 0 && s.Ready() <= s.expires
    && entry > 0.0 && s.zoneLow <= entry <= s.zoneHigh
    && stopped > 0.0 && s.Signed(stopped - s.stop) <= 0.0
  }

  // A print whose share for the setup is q.
  function Print(s: Setup, price: real, q: real): Trade
    requires s.participation > 0.0
  {
    Trade("print", s.symbol, "venue", s.Ready(), s.Ready(), true, price, q / s.participation)
  }

  lemma ShareOf(s: Setup, price: real, q: real)
    requires s.participation > 0.0 && q > 0.0
    ensures Print(s, price, q).size > 0.0 && Print(s, price, q).size * s.participation == q
  {
    PositiveQuotient(q, s.participation);
  }

  lemma FullEntry(s: Setup, entry: real, stopped: real)
    requires Tradable(s, entry, stopped)
    ensures var p := OnTrade(s, FLAT, Print(s, entry, s.requested));
            p.quantity == s.requested && p.exited == 0.0 && p.closed.None? && p.reason.None? && p.fills != []
  {
    ShareOf(s, entry, s.requested);
    assert OnTrade(s, FLAT, Print(s, entry, s.requested)) == Enter(s, FLAT, Print(s, entry, s.requested));
  }

  lemma StoppedShort(s: Setup, entry: real, stopped: real, p: Position, rest: real)
    requires Tradable(s, entry, stopped) && 0.0 < rest < DUST && rest < s.requested
    requires p.quantity == s.requested && p.exited == 0.0 && p.closed.None? && p.reason.None?
    ensures var q := OnTrade(s, p, Print(s, stopped, s.requested - rest));
            q.quantity - q.exited == rest && q.closed.Some? && q.fills != []
  {
    var t := Print(s, stopped, s.requested - rest);
    ShareOf(s, stopped, s.requested - rest);
    var judged := Excursion(s, p, stopped).(reason := Some(StopHit));
    assert ExitFill(s, judged, t).quantity == s.requested - rest;
    assert OnTrade(s, p, t) == Leave(s, judged, t);
  }

  lemma RunOfTwo(s: Setup, a: Event, b: Event)
    requires s.Accepted() && s.Sane() && a.Traded? && b.Traded? && Real(a) && Real(b)
    ensures Run(s, [a]) == OnTrade(s, FLAT, a.trade)
    ensures Run(s, [a, b]) == OnTrade(s, Run(s, [a]), b.trade)
  {
    assert [a][..|[a]| - 1] == [];
    assert Run(s, []) == FLAT;
    assert [a, b][..|[a, b]| - 1] == [a];
  }

  /** Such a rest can be left of every setup that can be traded at all: for every amount below 1e-10
      there is a run of two prints that closes the position with exactly that rest, and it is not final. */
  lemma DustIsReachable(s: Setup, entry: real, stopped: real, rest: real) returns (events: seq<Event>)
    requires Tradable(s, entry, stopped) && 0.0 < rest < DUST && rest < s.requested
    ensures forall i :: 0 <= i < |events| ==> Real(events[i])
    ensures var p := Run(s, events); p.closed.Some? && p.Remaining() == rest && !Final(s, p)
  {
    var a, b := Traded(Print(s, entry, s.requested)), Traded(Print(s, stopped, s.requested - rest));
    ShareOf(s, entry, s.requested);
    ShareOf(s, stopped, s.requested - rest);
    events := [a, b];
    RunOfTwo(s, a, b);
    FullEntry(s, entry, stopped);
    StoppedShort(s, entry, stopped, Run(s, [a]), rest);
    FinalExactlyWithoutDust(s, Run(s, events));
  }

  // ---------------------------------------------------------------- the outcome

  datatype Verdict = Win | Loss | Breakeven | Incomplete

  predicate Complete(p: Position, gaps: bool) {
    p.closed.Some? && p.quantity > 0.0 && p.Remaining() < DUST && !gaps
  }

  function Net(s: Setup, p: Position): real {
    s.Signed(p.exitValue - p.entryValue) - p.fees - p.funding
  }

  // The profit of buying and selling for these values.
  function Profit(s: Setup, bought: real, sold: real, funding: real): real {
    s.Signed(sold - bought) - Fee(s, bought + sold) - funding
  }

  /** The profit: what a long sold for more than it bought for, or a short bought for less, less the fee rate on
      both values and the funding. */
  lemma ProfitMeans(s: Setup, entered: real, left: real, funding: real)
    ensures Profit(s, entered, left, funding) ==
            (if s.direction.Long? then left - entered else entered - left) - (entered + left) * s.feeBps / 10000.0 - funding
  {
  }

  lemma NetIsProfit(s: Setup, p: Position)
    requires Balanced(s, p)
    ensures Net(s, p) == Profit(s, Value(p.fills, true), Value(p.fills, false), p.funding)
  {
  }

  function Judge(s: Setup, p: Position, gaps: bool): Verdict {
    if !Complete(p, gaps) then Incomplete
    else if Net(s, p) > DUST then Win else if Net(s, p) < -DUST then Loss else Breakeven
  }

  // ---------------------------------------------------------------- the position as an object

  class PaperPosition {
    const setup: Setup
    var quantity: real
    var entryValue: real
    var fees: real
    var funding: real
    var exitValue: real
    var exited: real
    var reason: Option<Reason>
    var closed: Option<int>
    var fills: seq<Fill>
    var mfe: real
    var mae: real
    var funded: set<int>

    function Books(): Position
      reads this
    {
      Position(quantity, entryValue, fees, funding, exitValue, exited, reason, closed, fills, mfe, mae, funded)
    }

    ghost predicate Valid()
      reads this
    {
      setup.Accepted() && setup.Sane() && Consistent(setup, Books())
    }

    constructor (setup: Setup)
      requires setup.Accepted() && setup.Sane()
      ensures Valid() && this.setup == setup && Books() == FLAT
    {
      this.setup := setup;
      quantity, entryValue, fees, funding, exitValue, exited := 0.0, 0.0, 0.0, 0.0, 0.0, 0.0;
      reason, closed, fills, mfe, mae, funded := None, None, [], 0.0, 0.0, {};
    }

    method Track(price: real)
      modifies this`mfe, this`mae
      ensures Books() == Excursion(setup, old(Books()), price)
    {
      if quantity != 0.0 {
        var distance := Abs(setup.entry - setup.stop);
        var x := if distance != 0.0 then setup.Signed(price - Books().Entry(setup)) / distance else 0.0;
        mfe, mae := Max(mfe, x), Min(mae, x);
      }
    }

    method TakeEntry(t: Trade)
      modifies this`quantity, this`entryValue, this`fees, this`fills
      ensures Books() == Enter(setup, old(Books()), t)
    {
      var f := EntryFill(setup, Books(), t);
      quantity := quantity + f.quantity;
      entryValue := entryValue + f.Notional();
      fees := fees + Fee(setup, f.Notional());
      fills := fills + [f];
    }

    method TakeExit(t: Trade)
      modifies this`exitValue, this`exited, this`fees, this`fills, this`closed
      ensures Books() == Leave(setup, old(Books()), t)
    {
      var f := ExitFill(setup, Books(), t);
      exitValue := exitValue + f.Notional();
      exited := exited + f.quantity;
      fees := fees + Fee(setup, f.Notional());
      fills := fills + [f];
      if Books().Remaining() < DUST {
        closed := Some(t.event);
      }
    }

    /** A printed trade of any symbol. */
    method Trade(t: Trade)
      requires Valid() && t.price > 0.0 && t.size > 0.0
      modifies this
      ensures Valid() && Books() == OnTrade(setup, old(Books()), t)
    {
      TradeKeeps(setup, Books(), t);
      if Ignores(setup, Books(), t) {
        return;
      }
      Track(t.price);
      if Enters(setup, Books(), t) {
        TakeEntry(t);
        return;
      }
      if quantity == 0.0 {
        if t.event > setup.Ready() + setup.window {
          reason, closed := Some(MissedFill), Some(t.event);
        }
        return;
      }
      if reason.None? {
        reason := ExitReason(setup, t);
      }
      if reason.Some? {
        TakeExit(t);
      }
    }

    /** A funding payment. */
    method Funding(at: int, rate: real, mark: real)
      requires Valid()
      modifies this
      ensures Valid() && Books() == OnFunding(setup, old(Books()), at, rate, mark)
    {
      if quantity != 0.0 && Books().Remaining() != 0.0 && fills != [] && at >= fills[0].at && at !in funded {
        funding := funding + setup.Signed(Books().Remaining() * mark * rate);
        funded := funded + {at};
      }
    }

    /** The verdict on the position so far: the profit is the signed difference of the two sides'
        fill values less the fee rate on both and the funding, and all but 1e-10 was exited. */
    method Outcome(gaps: bool) returns (verdict: Verdict)
      requires Valid()
      ensures verdict == Incomplete <==>
                closed.None? || reason == Some(MissedFill) || quantity == 0.0
                || Filled(fills, true) - Filled(fills, false) >= DUST || gaps
      ensures var profit := Profit(setup, Value(fills, true), Value(fills, false), funding);
              verdict != Incomplete ==>
                (verdict == Win <==> profit > DUST) && (verdict == Loss <==> profit < -DUST)
    {
      NetIsProfit(setup, Books());
      verdict := Judge(setup, Books(), gaps);
    }
  }
}
