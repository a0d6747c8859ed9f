// The bounded executed-trade tape: a capped deque, an id index, and a watermark from
// which the tape still holds every accepted trade. A ghost sequence records all the
// trades accepted since the last reset.
module Tape {
  import opened Common
  import EventFeatures

  datatype Added = Accepted | Duplicate | Gap | WrongTape

  predicate Inside(t: Trade, start: int, end: int) {
    start <= t.event < end
  }

  // The trades with event time in [start, end), in order.
  function Window(ts: seq<Trade>, start: int, end: int): seq<Trade> {
    if ts == [] then []
    else
      Window(ts[..|ts| - 1], start, end) + (if Inside(ts[|ts| - 1], start, end) then [ts[|ts| - 1]] else [])
  }

  lemma {:induction false} WindowAppend(a: seq<Trade>, b: seq<Trade>, start: int, end: int)
    ensures Window(a + b, start, end) == Window(a, start, end) + Window(b, start, end)
  {
    if b == [] {
      assert a + b == a;
    } else {
      WindowAppend(a, b[..|b| - 1], start, end);
      assert (a + b)[..|a + b| - 1] == a + b[..|b| - 1];
    }
  }

  lemma {:induction false} WindowOfEarlier(ts: seq<Trade>, start: int, end: int)
    requires forall i :: 0 <= i < |ts| ==> ts[i].event < start
    ensures Window(ts, start, end) == []
  {
    if ts != [] {
      WindowOfEarlier(ts[..|ts| - 1], start, end);
    }
  }

  predicate Chronological(ts: seq<Trade>) {
    forall i, j :: 0 <= i < j < |ts| ==> ts[i].event <= ts[j].event
  }

  lemma ChronologicalSnoc(ts: seq<Trade>, t: Trade)
    requires Chronological(ts) && (ts != [] ==> ts[|ts| - 1].event <= t.event)
    ensures Chronological(ts + [t])
  {
  }

  predicate DistinctIds(ts: seq<Trade>) {
    forall i, j :: 0 <= i < j < |ts| ==> ts[i].id != ts[j].id
  }

  // `trades` are the last trades of `accepted`, and anything older lies before the watermark.
  ghost predicate Retains(trades: seq<Trade>, accepted: seq<Trade>, watermark: int) {
    && |trades| <= |accepted| && trades == accepted[|accepted| - |trades|..]
    && forall i :: 0 <= i < |accepted| - |trades| ==> accepted[i].event < watermark
  }

  /** From the watermark on, the retained trades answer every window as the whole history would. */
  lemma {:induction false} RetainedWindow(trades: seq<Trade>, accepted: seq<Trade>, watermark: int, start: int, end: int)
    requires Retains(trades, accepted, watermark) && start >= watermark
    ensures Window(trades, start, end) == Window(accepted, start, end)
  {
    var evicted := accepted[..|accepted| - |trades|];
    assert accepted == evicted + trades;
    WindowOfEarlier(evicted, start, end);
    WindowAppend(evicted, trades, start, end);
  }

  function Pushed(trades: seq<Trade>, t: Trade, full: bool): seq<Trade>
    requires full ==> trades != []
  {
    if full then trades[1..] + [t] else trades + [t]
  }

  // The watermark moves past a trade that is about to be evicted, and never back.
  function MovedTo(trades: seq<Trade>, capacity: nat, watermark: int): (r: int)
    requires capacity > 0
    ensures r >= watermark && (|trades| == capacity ==> r > trades[0].event)
  {
    if |trades| == capacity && watermark <= trades[0].event then trades[0].event + 1 else watermark
  }

  lemma PushRetains(trades: seq<Trade>, accepted: seq<Trade>, t: Trade, full: bool, watermark: int, moved: int)
    requires Retains(trades, accepted, watermark) && watermark <= moved
    requires full ==> trades != [] && trades[0].event < moved
    ensures Retains(Pushed(trades, t, full), accepted + [t], moved)
  {
    var pushed := Pushed(trades, t, full);
    var evicted := |accepted| + 1 - |pushed|;
    assert pushed == (accepted + [t])[evicted..];
    if full {
      assert accepted[evicted - 1] == trades[0];
    }
  }

  predicate HasId(trades: seq<Trade>, id: string) {
    exists i :: 0 <= i < |trades| && trades[i].id == id
  }

  // The index holds exactly the ids of the retained trades, one each.
  ghost predicate Indexes(ids: set<string>, trades: seq<Trade>) {
    DistinctIds(trades) && |ids| == |trades| && forall id :: id in ids <==> HasId(trades, id)
  }

  lemma PushIds(trades: seq<Trade>, ids: set<string>, t: Trade)
    requires Indexes(ids, trades) && t.id !in ids
    ensures Indexes(ids + {t.id}, trades + [t])
  {
    var pushed := trades + [t];
    assert forall i :: 0 <= i < |trades| ==> HasId(trades, trades[i].id);
    forall id
      ensures id in ids + {t.id} <==> HasId(pushed, id)
    {
      if HasId(trades, id) {
        var i :| 0 <= i < |trades| && trades[i].id == id;
        assert pushed[i].id == id;
      }
      assert pushed[|trades|].id == t.id;
    }
  }

  lemma DropIds(trades: seq<Trade>, ids: set<string>)
    requires Indexes(ids, trades) && trades != []
    ensures Indexes(ids - {trades[0].id}, trades[1..])
  {
    assert HasId(trades, trades[0].id);
    forall id
      ensures id in ids - {trades[0].id} <==> HasId(trades[1..], id)
    {
      if HasId(trades, id) && id != trades[0].id {
        var i :| 0 <= i < |trades| && trades[i].id == id;
        assert trades[1..][i - 1].id == id;
      }
      if HasId(trades[1..], id) {
        var i :| 0 <= i < |trades[1..]| && trades[1..][i].id == id;
        assert trades[i + 1].id == id && trades[0].id != trades[i + 1].id;
      }
    }
  }

  lemma PushIndexes(trades: seq<Trade>, ids: set<string>, t: Trade, full: bool)
    requires Indexes(ids, trades) && t.id !in ids && (full ==> trades != [])
    ensures Indexes(if full then ids + {t.id} - {trades[0].id} else ids + {t.id}, Pushed(trades, t, full))
    ensures full ==> trades[0].id != t.id
  {
    PushIds(trades, ids, t);
    if full {
      DropIds(trades + [t], ids + {t.id});
      assert (trades + [t])[1..] == trades[1..] + [t];
      assert HasId(trades, trades[0].id);
    }
  }

  // Retention, order and the index after one more trade.
  lemma PushKeeps(trades: seq<Trade>, accepted: seq<Trade>, ids: set<string>, watermark: int, t: Trade, full: bool, moved: int)
    requires Retains(trades, accepted, watermark) && Chronological(accepted) && Indexes(ids, trades)
    requires t.id !in ids && (accepted != [] ==> accepted[|accepted| - 1].event <= t.event)
    requires watermark <= moved && (full ==> trades != [] && trades[0].event < moved)
    ensures Retains(Pushed(trades, t, full), accepted + [t], moved) && Chronological(accepted + [t])
    ensures Indexes(if full then ids + {t.id} - {trades[0].id} else ids + {t.id}, Pushed(trades, t, full))
    ensures full ==> trades[0].id != t.id
  {
    ChronologicalSnoc(accepted, t);
    PushIndexes(trades, ids, t, full);
    PushRetains(trades, accepted, t, full, watermark, moved);
  }

  lemma PositiveNotional(t: Trade)
    requires t.price > 0.0 && t.size > 0.0
    ensures t.Notional() > 0.0
  {
  }

  // A print of the right tape in time order is never refused by the features.
  method AddFeatures(features: EventFeatures.Features, t: Trade, quantiles: seq<real>)
    requires features.Valid() && |quantiles| == 4 && t.price > 0.0 && t.size > 0.0
    requires t.symbol == features.symbol && t.exchange == features.source && t.event >= features.lastEvent
    modifies features
    ensures features.Valid() && features.history == old(features.history) + [t] && features.lastEvent == t.event
  {
    PositiveNotional(t);
    var ok := features.Add(t, quantiles);
  }

  class Tape {
    const capacity: nat
    const source: string
    const symbol: string
    var trades: seq<Trade>
    var ids: set<string>
    var coverageStart: int
    var lastEvent: int
    var lastReceipt: int
    var features: EventFeatures.Features?
    ghost var accepted: seq<Trade>

    constructor (capacity: nat, source: string, symbol: string)
      requires capacity > 0
      ensures Valid() && fresh(Repr()) && accepted == [] && coverageStart == 0
      ensures this.capacity == capacity && this.source == source && this.symbol == symbol
      ensures features != null <==> source != "" && symbol != ""
    {
      this.capacity, this.source, this.symbol := capacity, source, symbol;
      trades, ids, accepted := [], {}, [];
      coverageStart, lastEvent, lastReceipt := 0, 0, 0;
      features := null;
      new;
      if source != "" && symbol != "" {
        features := new EventFeatures.Features(source, symbol);
      }
    }

    ghost function Repr(): set<object>
      reads this
    {
      if features == null then {this} else {this, features}
    }

    // The deque, its id index and its watermark.
    ghost predicate Shape()
      reads this
    {
      && capacity > 0 && |trades| <= capacity
      && Retains(trades, accepted, coverageStart) && Chronological(accepted)
      && lastEvent == (if accepted == [] then 0 else accepted[|accepted| - 1].event)
      && Indexes(ids, trades)
    }

    ghost predicate Valid()
      reads this, features
    {
      && Shape()
      && (features != null ==>
            && features.Valid() && features.source == source && features.symbol == symbol
            && features.lastEvent == lastEvent && features.history == accepted)
    }

    method Reset(at: int)
      requires Valid()
      modifies this
      ensures Valid() && fresh(Repr() - old(Repr()))
      ensures accepted == [] && trades == [] && ids == {} && coverageStart == at
      ensures (features == null) == (old(features) == null)
    {
      trades, ids, accepted := [], {}, [];
      coverageStart, lastEvent, lastReceipt := at, 0, 0;
      if features != null {
        features := new EventFeatures.Features(source, symbol);
      }
    }

    // Drop the id of the trade about to be evicted, and move the watermark past that trade.
    method Evict(id: string)
      requires Shape() && id !in ids
      modifies this`ids, this`coverageStart
      ensures coverageStart == MovedTo(trades, capacity, old(coverageStart))
      ensures |trades| < capacity ==> ids == old(ids) + {id}
      ensures |trades| == capacity ==> ids == old(ids) + {id} - {trades[0].id}
    {
      if |trades| == capacity && coverageStart <= trades[0].event {
        coverageStart := trades[0].event + 1;
      }
      ids := ids + {id};
      if |ids| > capacity {
        ids := ids - {trades[0].id};
      }
    }

    /** add: an invalid trade or a foreign one changes nothing, a known id is ignored, an earlier
        trade resets the tape, and any other trade is appended, evicting the oldest when full. */
    method Add(t: Trade, quantiles: seq<real>) returns (r: Added)
      requires Valid() && |quantiles| == 4
      modifies Repr()
      ensures Valid() && fresh(Repr() - old(Repr()))
      ensures r == if t.price <= 0.0 || t.size <= 0.0 then Gap
                   else if old(features) != null && (t.symbol != symbol || t.exchange != source) then WrongTape
                   else if t.id in old(ids) then Duplicate
                   else if t.event < old(lastEvent) then Gap
                   else Accepted
      ensures r == Accepted ==>
                && accepted == old(accepted) + [t] && t.id in ids
                && trades == Pushed(old(trades), t, |old(trades)| == capacity)
                && coverageStart == MovedTo(old(trades), capacity, old(coverageStart))
      ensures r == Duplicate || r == WrongTape || t.price <= 0.0 || t.size <= 0.0 ==>
                accepted == old(accepted) && trades == old(trades) && ids == old(ids) && coverageStart == old(coverageStart)
      ensures r == Gap && t.price > 0.0 && t.size > 0.0 ==> accepted == [] && coverageStart == t.receipt
    {
      if t.price <= 0.0 || t.size <= 0.0 {
        return Gap;
      }
      if features != null && (t.symbol != symbol || t.exchange != source) {
        return WrongTape;
      }
      if t.id in ids {
        return Duplicate;
      }
      if t.event < lastEvent {
        Reset(t.receipt);
        return Gap;
      }
      Keep(t, quantiles);
      r := Accepted;
    }

    // Append an admissible trade here and in the features.
    method Keep(t: Trade, quantiles: seq<real>)
      requires Valid() && |quantiles| == 4 && t.price > 0.0 && t.size > 0.0
      requires features != null ==> t.symbol == symbol && t.exchange == source
      requires t.id !in ids && t.event >= lastEvent
      modifies Repr()
      ensures Valid() && features == old(features)
      ensures accepted == old(accepted) + [t] && t.id in ids
      ensures trades == Pushed(old(trades), t, |old(trades)| == capacity)
      ensures coverageStart == MovedTo(old(trades), capacity, old(coverageStart))
    {
      Retain(t);
      if features != null {
        AddFeatures(features, t, quantiles);
      }
    }

    // Append an admissible trade and move the clock to it.
    method Retain(t: Trade)
      requires Shape() && t.id !in ids && t.event >= lastEvent
      modifies this`trades, this`ids, this`coverageStart, this`accepted, this`lastEvent, this`lastReceipt
      ensures Shape() && lastEvent == t.event
      ensures accepted == old(accepted) + [t] && t.id in ids
      ensures trades == Pushed(old(trades), t, |old(trades)| == capacity)
      ensures coverageStart == MovedTo(old(trades), capacity, old(coverageStart))
    {
      Push(t);
      lastEvent, lastReceipt := t.event, t.receipt;
    }

    // The deque, its id index and its watermark after one more trade.
    method Push(t: Trade)
      requires Shape() && t.id !in ids && t.event >= lastEvent
      modifies this`trades, this`ids, this`coverageStart, this`accepted
      ensures accepted == old(accepted) + [t] && |trades| <= capacity
      ensures Retains(trades, accepted, coverageStart) && Chronological(accepted)
      ensures Indexes(ids, trades) && t.id in ids
      ensures trades == Pushed(old(trades), t, |old(trades)| == capacity)
      ensures coverageStart == MovedTo(old(trades), capacity, old(coverageStart))
    {
      var full := |trades| == capacity;
      ghost var watermark, before := coverageStart, ids;
      Evict(t.id);
      PushKeeps(trades, accepted, before, watermark, t, full, coverageStart);
      trades := Pushed(trades, t, full);
      accepted := accepted + [t];
    }

    /** window: exact over all accepted trades, evicted ones included, from coverage_start on. */
    method InWindow(start: int, end: int) returns (found: seq<Trade>)
      requires Valid()
      ensures found == Window(trades, start, end)
      ensures start >= coverageStart ==> found == Window(accepted, start, end)
    {
      found := [];
      for i := 0 to |trades|
        invariant found == Window(trades[..i], start, end)
      {
        assert trades[..i + 1][..i] == trades[..i];
        if Inside(trades[i], start, end) {
          found := found + [trades[i]];
        }
      }
      assert trades[..|trades|] == trades;
      if start >= coverageStart {
        RetainedWindow(trades, accepted, coverageStart, start, end);
      }
    }
  }
}
