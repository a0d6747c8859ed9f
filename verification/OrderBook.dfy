// The local order book: Book overlays absolute quantities on two price maps, and
// SequencedBook admits a venue's snapshot and deltas only while their update ids
// chain. Quantities and prices are exact reals.
module OrderBook {

  type Levels = map<real, real>

  datatype Row = Row(price: real, qty: real)

  // What Book.apply reads from a message.
  datatype Message = Message(snapshot: bool, u: int, sequence: int, bids: seq<Row>, asks: seq<Row>)

  datatype BookState = BookState(bids: Levels, asks: Levels, valid: bool, update: int, sequence: int)

  const EMPTY := BookState(map[], map[], false, 0, 0)

  datatype Kind = Accepted | Ignored | Gap

  datatype Applied = Applied(kind: Kind, book: BookState)

  // ---------------------------------------------------------------- Book.apply

  predicate RowOk(r: Row) {
    r.price > 0.0 && r.qty >= 0.0
  }

  predicate RowsOk(rows: seq<Row>) {
    forall i :: 0 <= i < |rows| ==> RowOk(rows[i])
  }

  function Put(levels: Levels, r: Row): Levels {
    if r.qty == 0.0 then levels - {r.price} else levels[r.price := r.qty]
  }

  function Overlay(levels: Levels, rows: seq<Row>): Levels {
    if rows == [] then levels else Put(Overlay(levels, rows[..|rows| - 1]), rows[|rows| - 1])
  }

  // Both sides are populated and the best bid is below the best ask.
  predicate TwoSided(bids: Levels, asks: Levels) {
    bids != map[] && asks != map[] && forall b, a :: b in bids && a in asks ==> b < a
  }

  predicate Positive(levels: Levels) {
    forall p :: p in levels ==> p > 0.0 && levels[p] > 0.0
  }

  function ApplyBook(b: BookState, m: Message): Applied {
    var snapshot := m.snapshot || m.u == 1;
    if !snapshot && !b.valid then Applied(Gap, b)
    else if !snapshot && (m.u <= b.update || m.sequence < b.sequence) then Applied(Gap, EMPTY)
    else if !RowsOk(m.bids) || !RowsOk(m.asks) then Applied(Gap, EMPTY)
    else
      var base := if snapshot then EMPTY else b;
      var bids, asks := Overlay(base.bids, m.bids), Overlay(base.asks, m.asks);
      if TwoSided(bids, asks) then Applied(Accepted, BookState(bids, asks, true, m.u, m.sequence))
      else Applied(Gap, EMPTY)
  }

  predicate Crossed(bids: Levels, asks: Levels) {
    exists b, a :: b in bids && a in asks && b >= a
  }

  /** A message is accepted exactly when it is a snapshot or follows a valid book without going back, its rows
      have positive prices and no negative quantity, and the sides it leaves are populated and not crossed. */
  lemma AcceptedMeans(b: BookState, m: Message)
    ensures var snapshot := m.snapshot || m.u == 1;
            var bids := Overlay(if snapshot then map[] else b.bids, m.bids);
            var asks := Overlay(if snapshot then map[] else b.asks, m.asks);
            ApplyBook(b, m).kind == Accepted <==>
              && (snapshot || (b.valid && m.u > b.update && m.sequence >= b.sequence))
              && (forall i :: 0 <= i < |m.bids| ==> m.bids[i].price > 0.0 && m.bids[i].qty >= 0.0)
              && (forall i :: 0 <= i < |m.asks| ==> m.asks[i].price > 0.0 && m.asks[i].qty >= 0.0)
              && bids != map[] && asks != map[] && !Crossed(bids, asks)
  {
  }

  lemma NoPrice(prices: set<real>)
    requires forall p :: p !in prices
    ensures prices == {}
  {
    assert forall p :: p in prices <==> p in {};
  }

  lemma SomePrice(prices: set<real>)
    requires prices != {}
    ensures exists p :: p in prices
  {
    if forall p :: p !in prices {
      NoPrice(prices);
    }
  }

  method Highest(prices: set<real>) returns (m: real)
    requires prices != {}
    ensures m in prices && forall p :: p in prices ==> p <= m
  {
    SomePrice(prices);
    m :| m in prices;
    var rest := prices - {m};
    while rest != {}
      invariant rest <= prices && m in prices
      invariant forall p :: p in prices ==> p in rest || p <= m
      decreases rest
    {
      SomePrice(rest);
      var p :| p in rest;
      if p > m {
        m := p;
      }
      rest := rest - {p};
    }
  }

  method Lowest(prices: set<real>) returns (m: real)
    requires prices != {}
    ensures m in prices && forall p :: p in prices ==> m <= p
  {
    SomePrice(prices);
    m :| m in prices;
    var rest := prices - {m};
    while rest != {}
      invariant rest <= prices && m in prices
      invariant forall p :: p in prices ==> p in rest || m <= p
      decreases rest
    {
      SomePrice(rest);
      var p :| p in rest;
      if p < m {
        m := p;
      }
      rest := rest - {p};
    }
  }

  lemma OverlayPositive(levels: Levels, rows: seq<Row>)
    requires Positive(levels) && RowsOk(rows)
    ensures Positive(Overlay(levels, rows))
  {
  }

  class Book {
    var bids: Levels
    var asks: Levels
    var valid: bool
    var update: int
    var sequence: int

    constructor ()
      ensures State() == EMPTY
    {
      bids, asks, valid, update, sequence := map[], map[], false, 0, 0;
    }

    function State(): BookState
      reads this
    {
      BookState(bids, asks, valid, update, sequence)
    }

    // A book that claims to be valid has a best bid and a best ask.
    predicate Sound()
      reads this
    {
      valid ==> TwoSided(bids, asks) && Positive(bids) && Positive(asks)
    }

    method Reset()
      modifies this
      ensures State() == EMPTY
    {
      bids, asks, valid, update, sequence := map[], map[], false, 0, 0;
    }

    // One side of the message; stops at the first invalid row.
    method OverlaySide(levels: Levels, rows: seq<Row>) returns (ok: bool, result: Levels)
      ensures ok == RowsOk(rows)
      ensures ok ==> result == Overlay(levels, rows)
    {
      result := levels;
      for i := 0 to |rows|
        invariant RowsOk(rows[..i])
        invariant result == Overlay(levels, rows[..i])
      {
        if !RowOk(rows[i]) {
          return false, result;
        }
        assert rows[..i + 1][..i] == rows[..i];
        result := Put(result, rows[i]);
      }
      assert rows[..|rows|] == rows;
      ok := true;
    }

    /** Book.apply: after it the book is either reset by a gap, or two-sided, uncrossed and positive. */
    method Apply(m: Message) returns (kind: Kind)
      requires Sound()
      modifies this
      ensures kind == ApplyBook(old(State()), m).kind && State() == ApplyBook(old(State()), m).book
      ensures Sound() && kind != Ignored
      ensures kind == Accepted ==> valid
    {
      var snapshot := m.snapshot || m.u == 1;
      if snapshot {
        Reset();
      } else if !valid {
        return Gap;
      } else if m.u <= update || m.sequence < sequence {
        Reset();
        return Gap;
      }
      ghost var bids0, asks0 := bids, asks;
      var ok;
      ok, bids := OverlaySide(bids, m.bids);
      if !ok {
        Reset();
        return Gap;
      }
      ok, asks := OverlaySide(asks, m.asks);
      if !ok {
        Reset();
        return Gap;
      }
      OverlayPositive(bids0, m.bids);
      OverlayPositive(asks0, m.asks);
      update, sequence := m.u, m.sequence;
      valid := false;
      if bids != map[] && asks != map[] {
        var bid := Highest(bids.Keys);
        var ask := Lowest(asks.Keys);
        assert TwoSided(bids, asks) <==> bid < ask;
        valid := bid < ask;
      }
      if !valid {
        Reset();
        return Gap;
      }
      kind := Accepted;
    }
  }
}
