// SequencedBook and its use by the Binance depth session. The exchange is a function
// from an update id to the quantity resting at every price; a message is honest when
// it quotes that function. The main theorem says that any accepted run of a snapshot
// and deltas leaves the local book equal to the exchange at the last accepted id, on
// every price that the snapshot or an accepted delta named.
module NativeStreams {
  import opened Common
  import opened OrderBook

  datatype Venue = Binance | Okx

  // lastUpdateId, u or seqId; U; pu or prevSeqId.
  datatype Wire = Wire(current: int, first: int, previous: int, bids: seq<Row>, asks: seq<Row>)

  datatype Input = Input(wire: Wire, snapshot: bool)

  datatype SeqState = SeqState(book: BookState, last: Option<int>, bridged: bool, local: int)

  datatype Fed = Fed(kind: Kind, state: SeqState)

  const BUDGET := 6000

  function Scaled(rows: seq<Row>, multiplier: real): (r: seq<Row>)
    ensures |r| == |rows|
    ensures forall i :: 0 <= i < |rows| ==> r[i] == Row(rows[i].price, rows[i].qty * multiplier)
  {
    seq(|rows|, i requires 0 <= i < |rows| => Row(rows[i].price, rows[i].qty * multiplier))
  }

  function ToMessage(w: Wire, snapshot: bool, multiplier: real, local: int): Message {
    Message(snapshot, local, local, Scaled(w.bids, multiplier), Scaled(w.asks, multiplier))
  }

  // The continuity rules, before the book is touched: Some(kind) ends the call there.
  function Admit(venue: Venue, s: SeqState, w: Wire, snapshot: bool): (r: (Option<Kind>, SeqState)) {
    var cleared := s.(book := EMPTY);
    if snapshot then (None, s)
    else if venue.Binance? then
      if s.last.None? then (Some(Gap), s)
      else if !s.bridged then
        if w.current < s.last.value then (Some(Ignored), s)
        else if !(w.first <= s.last.value <= w.current) then (Some(Gap), cleared)
        else (None, s.(bridged := true))
      else if w.previous != s.last.value || w.current <= s.last.value then (Some(Gap), cleared)
      else (None, s)
    else
      if s.last.None? || w.previous != s.last.value || w.current < s.last.value then (Some(Gap), cleared)
      else if w.current == s.last.value && (w.bids != [] || w.asks != []) then (Some(Gap), cleared)
      else (None, s)
  }

  // An admitted update goes to the book.
  function Take(venue: Venue, multiplier: real, s: SeqState, w: Wire, snapshot: bool): Fed {
    var local := s.local + 1;
    var applied := ApplyBook(s.book, ToMessage(w, snapshot, multiplier, local));
    var after := s.(book := applied.book, local := local);
    if applied.kind == Gap then Fed(Gap, after)
    else if |applied.book.bids| + |applied.book.asks| > BUDGET then
      Fed(Gap, after.(book := EMPTY, last := Some(w.current)))
    else
      Fed(Accepted, after.(last := Some(w.current), bridged := after.bridged && !(snapshot && venue.Binance?)))
  }

  // SequencedBook.apply.
  function Feed(venue: Venue, multiplier: real, s: SeqState, w: Wire, snapshot: bool): Fed {
    var (stop, admitted) := Admit(venue, s, w, snapshot);
    if stop.Some? then Fed(stop.value, admitted) else Take(venue, multiplier, admitted, w, snapshot)
  }

  // ---------------------------------------------------------------- the exchange

  datatype Side = Bid | Ask

  // The quantity resting at a price after an update id; zero when the level is absent.
  type Exchange = (Side, int, real) -> real

  function RowsOf(w: Wire, side: Side): seq<Row> {
    if side.Bid? then w.bids else w.asks
  }

  predicate Names(rows: seq<Row>, p: real) {
    exists i :: 0 <= i < |rows| && rows[i].price == p
  }

  // Every quoted row is the exchange's quantity at the message's own update id.
  ghost predicate Quotes(ex: Exchange, w: Wire, side: Side) {
    forall i :: 0 <= i < |RowsOf(w, side)| ==>
      RowsOf(w, side)[i].qty == ex(side, w.current, RowsOf(w, side)[i].price)
  }

  // A price that a delta does not name did not move in the updates the delta covers.
  ghost predicate Covers(ex: Exchange, w: Wire, side: Side) {
    forall p, k :: !Names(RowsOf(w, side), p) && w.previous <= k <= w.current ==>
      ex(side, k, p) == ex(side, w.current, p)
  }

  ghost predicate Honest(ex: Exchange, i: Input) {
    && Quotes(ex, i.wire, Bid) && Quotes(ex, i.wire, Ask)
    && (!i.snapshot ==>
          && i.wire.previous < i.wire.first
          && Covers(ex, i.wire, Bid) && Covers(ex, i.wire, Ask))
  }

  // ---------------------------------------------------------------- runs

  // The session state, with the prices named on each side since its last snapshot.
  datatype Session = Session(state: SeqState, open: bool, bids: set<real>, asks: set<real>)

  function Prices(rows: seq<Row>): set<real> {
    set i | 0 <= i < |rows| :: rows[i].price
  }

  // A gap ends the session; an ignored delta leaves it as it was.
  function Receive(venue: Venue, multiplier: real, s: Session, i: Input): Session {
    if !s.open then s
    else
      var fed := Feed(venue, multiplier, s.state, i.wire, i.snapshot);
      match fed.kind
      case Gap => s.(state := fed.state, open := false)
      case Ignored => s.(state := fed.state)
      case Accepted =>
        if i.snapshot then Session(fed.state, true, Prices(i.wire.bids), Prices(i.wire.asks))
        else Session(fed.state, true, s.bids + Prices(i.wire.bids), s.asks + Prices(i.wire.asks))
  }

  function Replay(venue: Venue, multiplier: real, s: Session, inputs: seq<Input>): Session {
    if inputs == [] then s
    else Receive(venue, multiplier, Replay(venue, multiplier, s, inputs[..|inputs| - 1]), inputs[|inputs| - 1])
  }

  // A new SequencedBook over a book that another session may have left in any state.
  function Fresh(book: BookState): Session {
    Session(SeqState(book, None, false, 1), true, {}, {})
  }

  function LevelAt(levels: Levels, p: real): real {
    if p in levels then levels[p] else 0.0
  }

  // The levels hold no unnamed price, and the exchange's quantity at every named one.
  ghost predicate Agrees(ex: Exchange, multiplier: real, levels: Levels, named: set<real>, side: Side, at: int) {
    && (forall p :: p in levels ==> p in named)
    && (forall p :: p in named ==> LevelAt(levels, p) == multiplier * ex(side, at, p))
  }

  // What every accepted run keeps.
  ghost predicate SessionInv(ex: Exchange, multiplier: real, s: Session) {
    s.open && s.state.last.Some? ==>
      var b := s.state.book;
      && b.valid && TwoSided(b.bids, b.asks) && Positive(b.bids) && Positive(b.asks)
      && b.update == b.sequence == s.state.local > 1
      && Agrees(ex, multiplier, b.bids, s.bids, Bid, s.state.last.value)
      && Agrees(ex, multiplier, b.asks, s.asks, Ask, s.state.last.value)
  }

  // The last of several rows for one price wins; other prices keep their level.
  lemma {:induction false} OverlayAt(levels: Levels, rows: seq<Row>, p: real, q: real)
    requires forall i :: 0 <= i < |rows| && rows[i].price == p ==> rows[i].qty == q
    ensures LevelAt(Overlay(levels, rows), p) == if Names(rows, p) then q else LevelAt(levels, p)
    ensures p in Overlay(levels, rows) ==> p in levels || Names(rows, p)
  {
    if rows != [] {
      var front, last := rows[..|rows| - 1], rows[|rows| - 1];
      OverlayAt(levels, front, p, q);
      assert Names(front, p) ==> Names(rows, p);
      if last.price == p {
        assert rows[|rows| - 1].price == p;
      } else if Names(rows, p) {
        var i :| 0 <= i < |rows| && rows[i].price == p;
        assert front[i].price == p;
      }
    }
  }

  lemma NamesAre(rows: seq<Row>, multiplier: real, p: real)
    ensures Names(Scaled(rows, multiplier), p) <==> Names(rows, p)
    ensures Names(rows, p) <==> p in Prices(rows)
  {
    if Names(rows, p) {
      var i :| 0 <= i < |rows| && rows[i].price == p;
      assert Scaled(rows, multiplier)[i].price == p;
    }
  }

  // One price of one side after an accepted message.
  lemma PriceAgrees(ex: Exchange, multiplier: real, before: Levels, named: set<real>, w: Wire, side: Side,
                    at: int, snapshot: bool, p: real)
    requires Quotes(ex, w, side)
    requires snapshot ==> before == map[] && named == {}
    requires !snapshot ==> Covers(ex, w, side) && w.previous <= at <= w.current
    requires Agrees(ex, multiplier, before, named, side, at)
    ensures var after, names := Overlay(before, Scaled(RowsOf(w, side), multiplier)), named + Prices(RowsOf(w, side));
            && (p in after ==> p in names)
            && (p in names ==> LevelAt(after, p) == multiplier * ex(side, w.current, p))
  {
    var rows := RowsOf(w, side);
    NamesAre(rows, multiplier, p);
    OverlayAt(before, Scaled(rows, multiplier), p, ex(side, w.current, p) * multiplier);
  }

  // One side of an accepted message agrees with the exchange afterwards.
  lemma SideAgrees(ex: Exchange, multiplier: real, before: Levels, named: set<real>, w: Wire, side: Side,
                   at: int, snapshot: bool)
    requires Quotes(ex, w, side)
    requires snapshot ==> before == map[] && named == {}
    requires !snapshot ==> Covers(ex, w, side) && w.previous <= at <= w.current
    requires Agrees(ex, multiplier, before, named, side, at)
    ensures Agrees(ex, multiplier, Overlay(before, Scaled(RowsOf(w, side), multiplier)),
                   named + Prices(RowsOf(w, side)), side, w.current)
  {
    forall p
      ensures p in Overlay(before, Scaled(RowsOf(w, side), multiplier)) ==> p in named + Prices(RowsOf(w, side))
      ensures p in named + Prices(RowsOf(w, side)) ==>
                LevelAt(Overlay(before, Scaled(RowsOf(w, side), multiplier)), p) == multiplier * ex(side, w.current, p)
    {
      PriceAgrees(ex, multiplier, before, named, w, side, at, snapshot, p);
    }
  }

  // An admitted delta continues the last accepted id: no update lies between them.
  lemma AdmittedDeltaContinues(venue: Venue, s: SeqState, w: Wire)
    requires w.previous < w.first && Admit(venue, s, w, false).0.None?
    ensures s.last.Some? && w.previous <= s.last.value <= w.current
  {
  }

  /** The rewritten counter never makes Book.apply see a delta as stale or as a snapshot: an
      admitted delta is only refused for its rows or for the book they leave. */
  lemma LocalCounterNeverTrips(venue: Venue, multiplier: real, s: SeqState, w: Wire)
    requires s.book.valid && s.book.update == s.book.sequence == s.local > 1
    requires Admit(venue, s, w, false).0.None?
    ensures var m := ToMessage(w, false, multiplier, s.local + 1);
            var applied := ApplyBook(s.book, m);
            && m.u != 1 && m.u > s.book.update && m.sequence >= s.book.sequence
            && (applied.kind == Accepted <==>
                  RowsOk(m.bids) && RowsOk(m.asks)
                  && TwoSided(Overlay(s.book.bids, m.bids), Overlay(s.book.asks, m.asks)))
  {
    var m := ToMessage(w, false, multiplier, s.local + 1);
    assert !m.snapshot && m.u == s.local + 1;
  }

  // A snapshot replaces the book and the named prices.
  lemma SnapshotAgrees(ex: Exchange, venue: Venue, multiplier: real, s: Session, i: Input)
    requires s.open && i.snapshot && Honest(ex, i)
    requires Feed(venue, multiplier, s.state, i.wire, true).kind == Accepted
    requires s.state.local > 0
    ensures SessionInv(ex, multiplier, Receive(venue, multiplier, s, i))
  {
    var w := i.wire;
    OverlayPositive(map[], Scaled(w.bids, multiplier));
    OverlayPositive(map[], Scaled(w.asks, multiplier));
    SideAgrees(ex, multiplier, map[], {}, w, Bid, w.current, true);
    SideAgrees(ex, multiplier, map[], {}, w, Ask, w.current, true);
    assert {} + Prices(w.bids) == Prices(w.bids) && {} + Prices(w.asks) == Prices(w.asks);
  }

  // What Feed does with an accepted delta on a valid book.
  lemma DeltaOverlays(venue: Venue, multiplier: real, s: SeqState, w: Wire)
    requires s.book.valid && s.book.update == s.book.sequence == s.local > 1 && w.previous < w.first
    requires Feed(venue, multiplier, s, w, false).kind == Accepted
    ensures var after := Feed(venue, multiplier, s, w, false).state;
            && s.last.Some? && w.previous <= s.last.value <= w.current
            && RowsOk(Scaled(w.bids, multiplier)) && RowsOk(Scaled(w.asks, multiplier))
            && after.book == BookState(Overlay(s.book.bids, Scaled(w.bids, multiplier)),
                                       Overlay(s.book.asks, Scaled(w.asks, multiplier)), true, after.local, after.local)
            && after.local == s.local + 1 && after.last == Some(w.current)
            && TwoSided(after.book.bids, after.book.asks)
  {
    AdmittedDeltaContinues(venue, s, w);
    LocalCounterNeverTrips(venue, multiplier, s, w);
  }

  lemma DeltaAgrees(ex: Exchange, venue: Venue, multiplier: real, s: Session, i: Input)
    requires s.open && !i.snapshot && Honest(ex, i)
    requires s.state.last.Some? && SessionInv(ex, multiplier, s)
    requires Feed(venue, multiplier, s.state, i.wire, false).kind == Accepted
    ensures SessionInv(ex, multiplier, Receive(venue, multiplier, s, i))
  {
    var w, b, at := i.wire, s.state.book, s.state.last.value;
    DeltaOverlays(venue, multiplier, s.state, w);
    OverlayPositive(b.bids, Scaled(w.bids, multiplier));
    OverlayPositive(b.asks, Scaled(w.asks, multiplier));
    SideAgrees(ex, multiplier, b.bids, s.bids, w, Bid, at, false);
    SideAgrees(ex, multiplier, b.asks, s.asks, w, Ask, at, false);
  }

  lemma ReceiveKeepsAgreement(ex: Exchange, venue: Venue, multiplier: real, s: Session, i: Input)
    requires SessionInv(ex, multiplier, s) && Honest(ex, i) && s.state.local > 0
    ensures SessionInv(ex, multiplier, Receive(venue, multiplier, s, i))
  {
    if s.open && Feed(venue, multiplier, s.state, i.wire, i.snapshot).kind == Accepted {
      if i.snapshot {
        SnapshotAgrees(ex, venue, multiplier, s, i);
      } else {
        DeltaAgrees(ex, venue, multiplier, s, i);
      }
    }
  }

  lemma LocalStaysPositive(venue: Venue, multiplier: real, s: Session, i: Input)
    requires s.state.local > 0
    ensures Receive(venue, multiplier, s, i).state.local > 0
  {
  }

  /** Refinement: after any accepted run, on every named price the book holds exactly the
      exchange's quantity at the last accepted update id, and it holds no other price. */
  lemma {:induction false} BookEqualsExchange(ex: Exchange, venue: Venue, multiplier: real, book: BookState, inputs: seq<Input>)
    requires forall k :: 0 <= k < |inputs| ==> Honest(ex, inputs[k])
    ensures SessionInv(ex, multiplier, Replay(venue, multiplier, Fresh(book), inputs))
    ensures var s := Replay(venue, multiplier, Fresh(book), inputs);
            s.state.local > 0
  {
    if inputs != [] {
      var front := inputs[..|inputs| - 1];
      BookEqualsExchange(ex, venue, multiplier, book, front);
      var s, last := Replay(venue, multiplier, Fresh(book), front), inputs[|inputs| - 1];
      ReceiveKeepsAgreement(ex, venue, multiplier, s, last);
      LocalStaysPositive(venue, multiplier, s, last);
      assert Replay(venue, multiplier, Fresh(book), inputs) == Receive(venue, multiplier, s, last);
    }
  }

  // ---------------------------------------------------------------- which deltas go on

  // Already contained in the snapshot: Binance's u is below it.
  predicate Stale(venue: Venue, s: SeqState, w: Wire) {
    venue.Binance? && !s.bridged && s.last.Some? && w.current < s.last.value
  }

  // The venues' own continuity rules. Binance: the first delta has U <= lastUpdateId <= u, and each later
  // one has pu equal to the previous u. OKX: prevSeqId equals the previous seqId, which a message
  // without rows may repeat.
  predicate Chains(venue: Venue, s: SeqState, w: Wire) {
    s.last.Some? &&
    match venue
    case Binance =>
      if s.bridged then w.previous == s.last.value < w.current
      else w.first <= s.last.value && s.last.value <= w.current
    case Okx => w.previous == s.last.value && (w.current > s.last.value || (w.current == s.last.value && w.bids == w.asks == []))
  }

  /** A delta that chains goes to the book, a stale one is ignored, and every other one is a gap. */
  lemma AdmittedExactly(venue: Venue, multiplier: real, s: SeqState, w: Wire)
    ensures var fed, admitted := Feed(venue, multiplier, s, w, false), s.(bridged := s.bridged || venue.Binance?);
            && (Stale(venue, s, w) ==> fed == Fed(Ignored, s))
            && (!Stale(venue, s, w) && Chains(venue, s, w) ==> fed == Take(venue, multiplier, admitted, w, false))
            && (!Stale(venue, s, w) && !Chains(venue, s, w) ==> fed.kind == Gap && fed.state.last == s.last)
  {
  }

  // The exchange's own book never crosses, at the given update id.
  ghost predicate Uncrossed(ex: Exchange, at: int) {
    forall b, a :: ex(Bid, at, b) > 0.0 && ex(Ask, at, a) > 0.0 ==> b < a
  }

  // The named prices at which the exchange has a quantity.
  ghost function Resting(ex: Exchange, side: Side, at: int, named: set<real>): set<real> {
    set p | p in named && ex(side, at, p) > 0.0
  }

  // Both sides of the exchange still rest on named prices, and not on more than the budget.
  ghost predicate Carries(ex: Exchange, at: int, bids: set<real>, asks: set<real>) {
    var b, a := Resting(ex, Bid, at, bids), Resting(ex, Ask, at, asks);
    b != {} && a != {} && |b| + |a| <= 6000
  }

  // An agreeing side holds exactly those prices.
  lemma RestingPrices(ex: Exchange, multiplier: real, levels: Levels, named: set<real>, side: Side, at: int)
    requires multiplier > 0.0 && Positive(levels) && Agrees(ex, multiplier, levels, named, side, at)
    ensures levels.Keys == Resting(ex, side, at, named) && |levels| == |Resting(ex, side, at, named)|
  {
    forall p ensures p in levels <==> p in Resting(ex, side, at, named) {
      if p in named {
        SignOf(multiplier, ex(side, at, p));
      }
    }
  }

  lemma SignOf(m: real, x: real)
    requires m > 0.0
    ensures m * x > 0.0 <==> x > 0.0
  {
    if x <= 0.0 {
      assert m * (-x) >= 0.0;
    }
  }

  // Two agreeing sides of an uncrossed exchange are refused only when one is empty.
  lemma AgreeingSides(ex: Exchange, multiplier: real, bids: Levels, asks: Levels, bidNames: set<real>, askNames: set<real>, at: int)
    requires multiplier > 0.0 && Positive(bids) && Positive(asks) && Uncrossed(ex, at)
    requires Agrees(ex, multiplier, bids, bidNames, Bid, at) && Agrees(ex, multiplier, asks, askNames, Ask, at)
    ensures TwoSided(bids, asks) && |bids| + |asks| <= BUDGET <==> Carries(ex, at, bidNames, askNames)
  {
    RestingPrices(ex, multiplier, bids, bidNames, Bid, at);
    RestingPrices(ex, multiplier, asks, askNames, Ask, at);
    forall p, q | p in bids && q in asks ensures p < q {
      assert p in Resting(ex, Bid, at, bidNames) && q in Resting(ex, Ask, at, askNames);
    }
    assert bids == map[] <==> bids.Keys == {};
    assert asks == map[] <==> asks.Keys == {};
  }

  /** An honest delta of an uncrossed exchange that chains is never refused as crossed, stale or invalid:
      it is accepted exactly when both sides still rest on named prices within the depth budget. */
  lemma OnlyAnEmptySideIsRefused(ex: Exchange, venue: Venue, multiplier: real, s: Session, w: Wire)
    requires multiplier > 0.0 && s.open && s.state.last.Some? && SessionInv(ex, multiplier, s)
    requires Honest(ex, Input(w, false)) && RowsOk(w.bids) && RowsOk(w.asks) && Uncrossed(ex, w.current)
    requires Chains(venue, s.state, w)
    ensures Feed(venue, multiplier, s.state, w, false).kind ==
            if Carries(ex, w.current, s.bids + Prices(w.bids), s.asks + Prices(w.asks)) then Accepted else Gap
  {
    var b, at := s.state.book, s.state.last.value;
    var m := ToMessage(w, false, multiplier, s.state.local + 1);
    AdmittedExactly(venue, multiplier, s.state, w);
    AdmittedDeltaContinues(venue, s.state, w);
    LocalCounterNeverTrips(venue, multiplier, s.state, w);
    ScaledOk(w.bids, multiplier);
    ScaledOk(w.asks, multiplier);
    OverlayPositive(b.bids, m.bids);
    OverlayPositive(b.asks, m.asks);
    SideAgrees(ex, multiplier, b.bids, s.bids, w, Bid, at, false);
    SideAgrees(ex, multiplier, b.asks, s.asks, w, Ask, at, false);
    AgreeingSides(ex, multiplier, Overlay(b.bids, m.bids), Overlay(b.asks, m.asks),
                  s.bids + Prices(w.bids), s.asks + Prices(w.asks), w.current);
  }

  lemma ScaledOk(rows: seq<Row>, multiplier: real)
    requires multiplier > 0.0 && RowsOk(rows)
    ensures RowsOk(Scaled(rows, multiplier))
  {
  }

  lemma SnapshotTaken(venue: Venue, multiplier: real, s: SeqState, w: Wire)
    requires RowsOk(Scaled(w.bids, multiplier)) && RowsOk(Scaled(w.asks, multiplier))
    ensures var bids, asks := Overlay(map[], Scaled(w.bids, multiplier)), Overlay(map[], Scaled(w.asks, multiplier));
            Feed(venue, multiplier, s, w, true).kind ==
            if TwoSided(bids, asks) && |bids| + |asks| <= BUDGET then Accepted else Gap
  {
  }

  // One side of an honest snapshot.
  lemma SnapshotSide(ex: Exchange, multiplier: real, w: Wire, side: Side)
    requires multiplier > 0.0 && Quotes(ex, w, side) && RowsOk(RowsOf(w, side))
    ensures var levels := Overlay(map[], Scaled(RowsOf(w, side), multiplier));
            && RowsOk(Scaled(RowsOf(w, side), multiplier)) && Positive(levels)
            && Agrees(ex, multiplier, levels, Prices(RowsOf(w, side)), side, w.current)
  {
    ScaledOk(RowsOf(w, side), multiplier);
    OverlayPositive(map[], Scaled(RowsOf(w, side), multiplier));
    SideAgrees(ex, multiplier, map[], {}, w, side, w.current, true);
    assert {} + Prices(RowsOf(w, side)) == Prices(RowsOf(w, side));
  }

  // An honest snapshot of an uncrossed exchange is accepted under the same condition.
  lemma SnapshotAccepted(ex: Exchange, venue: Venue, multiplier: real, s: SeqState, w: Wire)
    requires multiplier > 0.0 && Honest(ex, Input(w, true)) && RowsOk(w.bids) && RowsOk(w.asks) && Uncrossed(ex, w.current)
    ensures Feed(venue, multiplier, s, w, true).kind ==
            if Carries(ex, w.current, Prices(w.bids), Prices(w.asks)) then Accepted else Gap
  {
    SnapshotSide(ex, multiplier, w, Bid);
    SnapshotSide(ex, multiplier, w, Ask);
    AgreeingSides(ex, multiplier, Overlay(map[], Scaled(w.bids, multiplier)), Overlay(map[], Scaled(w.asks, multiplier)),
                  Prices(w.bids), Prices(w.asks), w.current);
    SnapshotTaken(venue, multiplier, s, w);
  }

  // ---------------------------------------------------------------- an unbroken feed

  // One message of a feed follows the one before it, as the venue numbers them.
  predicate Follows(venue: Venue, before: Input, next: Input) {
    var last, w := before.wire.current, next.wire;
    !next.snapshot &&
    match venue
    case Binance => if before.snapshot then w.first <= last && last <= w.current else w.previous == last < w.current
    case Okx => w.previous == last && (w.current > last || (w.current == last && w.bids == w.asks == []))
  }

  // A snapshot and then deltas without a hole, all honest, of an exchange that never crosses.
  ghost predicate Unbroken(ex: Exchange, venue: Venue, inputs: seq<Input>) {
    && inputs != [] && inputs[0].snapshot
    && (forall k :: 0 < k < |inputs| ==> Follows(venue, inputs[k - 1], inputs[k]))
    && (forall k :: 0 <= k < |inputs| ==>
          Honest(ex, inputs[k]) && Uncrossed(ex, inputs[k].wire.current)
          && RowsOk(inputs[k].wire.bids) && RowsOk(inputs[k].wire.asks))
  }

  // The prices a feed has named on one side.
  function Named(inputs: seq<Input>, side: Side): set<real> {
    if inputs == [] then {} else Named(inputs[..|inputs| - 1], side) + Prices(RowsOf(inputs[|inputs| - 1].wire, side))
  }

  ghost predicate CarriesAfter(ex: Exchange, inputs: seq<Input>)
    requires inputs != []
  {
    Carries(ex, inputs[|inputs| - 1].wire.current, Named(inputs, Bid), Named(inputs, Ask))
  }

  // Where an open session stands after a feed.
  ghost predicate StandsAfter(ex: Exchange, venue: Venue, multiplier: real, s: Session, inputs: seq<Input>)
    requires inputs != []
  {
    var last := inputs[|inputs| - 1];
    && SessionInv(ex, multiplier, s) && s.state.last == Some(last.wire.current)
    && s.bids == Named(inputs, Bid) && s.asks == Named(inputs, Ask)
    && (venue.Binance? ==> s.state.bridged == !last.snapshot)
  }

  lemma UnbrokenFront(ex: Exchange, venue: Venue, inputs: seq<Input>)
    requires Unbroken(ex, venue, inputs) && |inputs| > 1
    ensures Unbroken(ex, venue, inputs[..|inputs| - 1])
    ensures Follows(venue, inputs[|inputs| - 2], inputs[|inputs| - 1])
  {
    assert inputs[|inputs| - 1 - 1] == inputs[|inputs| - 2];
  }

  lemma FollowsChains(ex: Exchange, venue: Venue, multiplier: real, s: Session, front: seq<Input>, next: Input)
    requires front != [] && StandsAfter(ex, venue, multiplier, s, front) && Follows(venue, front[|front| - 1], next)
    ensures Chains(venue, s.state, next.wire)
  {
  }

  lemma FedFurther(venue: Venue, multiplier: real, s: Session, i: Input)
    requires s.open && Feed(venue, multiplier, s.state, i.wire, i.snapshot).kind == Accepted
    ensures var t := Receive(venue, multiplier, s, i);
            && t.open && t.state.last == Some(i.wire.current)
            && (venue.Binance? ==> t.state.bridged == !i.snapshot)
            && t.bids == (if i.snapshot then {} else s.bids) + Prices(i.wire.bids)
            && t.asks == (if i.snapshot then {} else s.asks) + Prices(i.wire.asks)
  {
  }

  lemma NamedOne(i: Input, side: Side)
    ensures Named([i], side) == Prices(RowsOf(i.wire, side))
  {
    assert [i][..0] == [];
    assert Named([], side) == {};
  }

  lemma FirstMessage(ex: Exchange, venue: Venue, multiplier: real, s: Session, i: Input)
    requires multiplier > 0.0 && i.snapshot && Honest(ex, i) && Uncrossed(ex, i.wire.current)
    requires RowsOk(i.wire.bids) && RowsOk(i.wire.asks) && s.open && s.state.local == 1
    ensures var t := Receive(venue, multiplier, s, i);
            && t.open == Carries(ex, i.wire.current, Prices(i.wire.bids), Prices(i.wire.asks))
            && (t.open ==>
                  && SessionInv(ex, multiplier, t) && t.state.last == Some(i.wire.current)
                  && t.bids == Prices(i.wire.bids) && t.asks == Prices(i.wire.asks)
                  && (venue.Binance? ==> !t.state.bridged))
  {
    SnapshotAccepted(ex, venue, multiplier, s.state, i.wire);
    if Feed(venue, multiplier, s.state, i.wire, true).kind == Accepted {
      FedFurther(venue, multiplier, s, i);
      SnapshotAgrees(ex, venue, multiplier, s, i);
      assert {} + Prices(i.wire.bids) == Prices(i.wire.bids) && {} + Prices(i.wire.asks) == Prices(i.wire.asks);
    }
  }

  lemma NextMessage(ex: Exchange, venue: Venue, multiplier: real, s: Session, front: seq<Input>, i: Input)
    requires multiplier > 0.0 && front != [] && s.open && s.state.local > 0 && StandsAfter(ex, venue, multiplier, s, front)
    requires Unbroken(ex, venue, front + [i]) && Follows(venue, front[|front| - 1], i)
    ensures var t := Receive(venue, multiplier, s, i);
            && t.open == CarriesAfter(ex, front + [i])
            && (t.open ==> StandsAfter(ex, venue, multiplier, t, front + [i]))
  {
    var inputs := front + [i];
    assert inputs[|inputs| - 1] == i && inputs[..|inputs| - 1] == front;
    FollowsChains(ex, venue, multiplier, s, front, i);
    OnlyAnEmptySideIsRefused(ex, venue, multiplier, s, i.wire);
    if Feed(venue, multiplier, s.state, i.wire, false).kind == Accepted {
      FedFurther(venue, multiplier, s, i);
      ReceiveKeepsAgreement(ex, venue, multiplier, s, i);
    }
  }

  // After every message of the feed, both sides still rest on named prices.
  ghost predicate AlwaysCarries(ex: Exchange, inputs: seq<Input>) {
    forall n :: 0 < n <= |inputs| ==> CarriesAfter(ex, inputs[..n])
  }

  lemma CarriesFurther(ex: Exchange, inputs: seq<Input>)
    requires inputs != []
    ensures AlwaysCarries(ex, inputs) <==> AlwaysCarries(ex, inputs[..|inputs| - 1]) && CarriesAfter(ex, inputs)
  {
    var front := inputs[..|inputs| - 1];
    assert inputs[..|inputs|] == inputs;
    assert forall n :: 0 < n <= |front| ==> front[..n] == inputs[..n];
    if AlwaysCarries(ex, inputs) {
      assert CarriesAfter(ex, inputs[..|inputs|]);
      forall n | 0 < n <= |front| ensures CarriesAfter(ex, front[..n]) {
        assert CarriesAfter(ex, inputs[..n]);
      }
    }
  }

  lemma OpenAtFirst(ex: Exchange, venue: Venue, multiplier: real, book: BookState, i: Input)
    requires multiplier > 0.0 && Unbroken(ex, venue, [i])
    ensures var s := Replay(venue, multiplier, Fresh(book), [i]);
            && s.open == CarriesAfter(ex, [i])
            && (s.open ==> StandsAfter(ex, venue, multiplier, s, [i]))
  {
    assert [i][0] == i && [i][..0] == [];
    assert Replay(venue, multiplier, Fresh(book), []) == Fresh(book);
    NamedOne(i, Bid);
    NamedOne(i, Ask);
    FirstMessage(ex, venue, multiplier, Fresh(book), i);
  }

  /** A session over an unbroken honest feed of an uncrossed exchange stays open exactly as long as, after
      every message, both sides of the exchange rest on named prices within the depth budget: no message
      is ever refused for its numbers. */
  lemma {:induction false} OpenExactly(ex: Exchange, venue: Venue, multiplier: real, book: BookState, inputs: seq<Input>)
    requires multiplier > 0.0 && Unbroken(ex, venue, inputs)
    ensures var s := Replay(venue, multiplier, Fresh(book), inputs);
            && (s.open <==> AlwaysCarries(ex, inputs))
            && (s.open ==> StandsAfter(ex, venue, multiplier, s, inputs))
  {
    var n, i := |inputs| - 1, inputs[|inputs| - 1];
    var front := inputs[..n];
    CarriesFurther(ex, inputs);
    if n == 0 {
      assert inputs == [i];
      OpenAtFirst(ex, venue, multiplier, book, i);
    } else {
      UnbrokenFront(ex, venue, inputs);
      OpenExactly(ex, venue, multiplier, book, front);
      OpenNext(ex, venue, multiplier, book, inputs);
    }
  }

  lemma OpenNext(ex: Exchange, venue: Venue, multiplier: real, book: BookState, inputs: seq<Input>)
    requires multiplier > 0.0 && Unbroken(ex, venue, inputs) && |inputs| > 1
    requires var s := Replay(venue, multiplier, Fresh(book), inputs[..|inputs| - 1]);
             s.open ==> StandsAfter(ex, venue, multiplier, s, inputs[..|inputs| - 1])
    ensures var s, t := Replay(venue, multiplier, Fresh(book), inputs[..|inputs| - 1]), Replay(venue, multiplier, Fresh(book), inputs);
            && (t.open <==> s.open && CarriesAfter(ex, inputs))
            && (t.open ==> StandsAfter(ex, venue, multiplier, t, inputs))
  {
    var front, i := inputs[..|inputs| - 1], inputs[|inputs| - 1];
    var s := Replay(venue, multiplier, Fresh(book), front);
    UnbrokenFront(ex, venue, inputs);
    if s.open {
      BookEqualsExchange(ex, venue, multiplier, book, front);
      assert inputs == front + [i];
      NextMessage(ex, venue, multiplier, s, front, i);
    }
  }

  // ---------------------------------------------------------------- the running objects

  class SequencedBook {
    const venue: Venue
    const multiplier: real
    const book: Book
    var last: Option<int>
    var bridged: bool
    var local: int

    constructor (venue: Venue, book: Book, multiplier: real)
      ensures this.venue == venue && this.book == book && this.multiplier == multiplier
      ensures State() == SeqState(book.State(), None, false, 1)
    {
      this.venue, this.book, this.multiplier := venue, book, multiplier;
      last, bridged, local := None, false, 1;
    }

    function State(): SeqState
      reads this, book
    {
      SeqState(book.State(), last, bridged, local)
    }

    // The venue's continuity check of a delta: no outcome means that it goes on to the book.
    method Check(w: Wire) returns (stop: Option<Kind>)
      requires book.Sound()
      modifies this`bridged, book
      ensures book.Sound()
      ensures (stop, State()) == Admit(venue, old(State()), w, false)
    {
      if venue.Binance? {
        if last.None? {
          return Some(Gap);
        }
        if !bridged {
          if w.current < last.value {
            return Some(Ignored);
          }
          if !(w.first <= last.value <= w.current) {
            book.Reset();
            return Some(Gap);
          }
          bridged := true;
        } else if w.previous != last.value || w.current <= last.value {
          book.Reset();
          return Some(Gap);
        }
      } else {
        if last.None? || w.previous != last.value || w.current < last.value {
          book.Reset();
          return Some(Gap);
        }
        if w.current == last.value && (w.bids != [] || w.asks != []) {
          book.Reset();
          return Some(Gap);
        }
      }
      return None;
    }

    // An admitted update.
    method Accept(w: Wire, snapshot: bool) returns (kind: Kind)
      requires book.Sound()
      modifies this, book
      ensures book.Sound()
      ensures Fed(kind, State()) == Take(venue, multiplier, old(State()), w, snapshot)
    {
      local := local + 1;
      kind := book.Apply(ToMessage(w, snapshot, multiplier, local));
      if kind == Gap {
        return;
      }
      last := Some(w.current);
      if |book.bids| + |book.asks| > BUDGET {
        book.Reset();
        return Gap;
      }
      if snapshot && venue.Binance? {
        bridged := false;
      }
    }

    /** SequencedBook.apply computes exactly Feed. */
    method Apply(w: Wire, snapshot: bool) returns (kind: Kind)
      requires book.Sound()
      modifies this, book
      ensures book.Sound()
      ensures kind == Feed(venue, multiplier, old(State()), w, snapshot).kind
      ensures State() == Feed(venue, multiplier, old(State()), w, snapshot).state
    {
      if !snapshot {
        var stop := Check(w);
        if stop.Some? {
          return stop.value;
        }
      }
      kind := Accept(w, snapshot);
    }
  }

  // binance_depth holds the book invalid until the bridge; the update state is otherwise Feed's.
  function Unmarked(s: SeqState): SeqState {
    s.(book := s.book.(valid := true))
  }

  predicate Populated(book: Book)
    reads book
  {
    TwoSided(book.bids, book.asks) && Positive(book.bids) && Positive(book.asks)
  }

  // One buffered delta of binance_depth: a stale one is skipped before the bridge.
  method BufferedDelta(state: SequencedBook, w: Wire) returns (gap: bool)
    requires state.venue == Binance && state.last.Some? && Populated(state.book)
    requires state.book.valid ==> state.bridged
    modifies state, state.book
    ensures var fed := Feed(Binance, state.multiplier, Unmarked(old(state.State())), w, false);
            && gap == (fed.kind == Gap)
            && (!gap ==> Unmarked(state.State()) == fed.state && state.last.Some? && Populated(state.book))
    ensures state.book.valid ==> state.bridged && !gap
    ensures state.book.Sound()
  {
    if !state.bridged && w.current < state.last.value {
      return false;
    }
    state.book.valid := true;
    var kind := state.Apply(w, false);
    gap := kind == Gap;
  }

  function Inputs(snapshot: Wire, deltas: seq<Wire>): seq<Input> {
    [Input(snapshot, true)] + seq(|deltas|, i requires 0 <= i < |deltas| => Input(deltas[i], false))
  }

  function Replayed(start: Session, snapshot: Wire, deltas: seq<Wire>): Session {
    Replay(Binance, 1.0, start, Inputs(snapshot, deltas))
  }

  lemma ReplaySnapshot(start: Session, snapshot: Wire)
    requires start.open
    ensures var fed := Feed(Binance, 1.0, start.state, snapshot, true);
            && Replayed(start, snapshot, []).open == (fed.kind != Gap)
            && Replayed(start, snapshot, []).state == fed.state
  {
    var inputs := Inputs(snapshot, []);
    assert inputs == [Input(snapshot, true)] && inputs[..0] == [];
    assert Replay(Binance, 1.0, start, inputs[..0]) == start;
  }

  lemma ReplayDelta(start: Session, snapshot: Wire, deltas: seq<Wire>, i: nat)
    requires i < |deltas| && Replayed(start, snapshot, deltas[..i]).open
    ensures var s := Replayed(start, snapshot, deltas[..i]).state;
            var fed := Feed(Binance, 1.0, s, deltas[i], false);
            && Replayed(start, snapshot, deltas[..i + 1]).open == (fed.kind != Gap)
            && Replayed(start, snapshot, deltas[..i + 1]).state == fed.state
  {
    var inputs := Inputs(snapshot, deltas[..i + 1]);
    assert inputs[..|inputs| - 1] == Inputs(snapshot, deltas[..i]);
    assert inputs[|inputs| - 1] == Input(deltas[i], false);
  }

  // The loop of binance_depth after its snapshot.
  method Drain(state: SequencedBook, ghost start: Session, ghost snapshot: Wire, deltas: seq<Wire>)
    returns (gap: bool, taken: nat)
    requires state.venue == Binance && state.multiplier == 1.0 && state.last.Some?
    requires Populated(state.book) && !state.book.valid
    requires Replayed(start, snapshot, deltas[..0]).open
    requires Unmarked(state.State()) == Replayed(start, snapshot, deltas[..0]).state
    modifies state, state.book
    ensures taken <= |deltas| && state.book.Sound()
    ensures gap == !Replayed(start, snapshot, deltas[..taken]).open
    ensures !gap ==> taken == |deltas| && Unmarked(state.State()) == Replayed(start, snapshot, deltas[..taken]).state
    ensures state.book.valid ==> state.bridged && !gap
  {
    gap, taken := false, 0;
    while taken < |deltas|
      invariant 0 <= taken <= |deltas| && state.last.Some?
      invariant Populated(state.book) && (state.book.valid ==> state.bridged)
      invariant Replayed(start, snapshot, deltas[..taken]).open
      invariant Unmarked(state.State()) == Replayed(start, snapshot, deltas[..taken]).state
    {
      ReplayDelta(start, snapshot, deltas, taken);
      gap := BufferedDelta(state, deltas[taken]);
      taken := taken + 1;
      if gap {
        return;
      }
    }
  }

  /** binance_depth over the deltas of one session: it replays them exactly, so the refinement
      above holds of its book, and a book that qualifies is bridged and has not seen a gap. */
  method BinanceDepth(book: Book, snapshot: Wire, deltas: seq<Wire>)
    returns (state: SequencedBook, gap: bool, taken: nat)
    requires book.Sound()
    modifies book
    ensures fresh(state) && state.book == book && book.Sound() && taken <= |deltas|
    ensures var replayed := Replayed(Fresh(old(book.State())), snapshot, deltas[..taken]);
            && gap == !replayed.open
            && (!gap ==> taken == |deltas| && Unmarked(state.State()) == replayed.state)
    ensures book.valid ==> state.bridged && !gap
  {
    state := new SequencedBook(Binance, book, 1.0);
    ghost var start := Fresh(book.State());
    taken := 0;
    ReplaySnapshot(start, snapshot);
    assert deltas[..0] == [];
    var kind := state.Apply(snapshot, true);
    gap := kind == Gap;
    if gap {
      return;
    }
    book.valid := false;
    gap, taken := Drain(state, start, snapshot, deltas);
  }

}
