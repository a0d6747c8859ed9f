// One-minute candles and their order.
module Bars {
  import opened Common

  const MINUTE := 60000

  datatype Bar = Bar(start: int, interval: int, open: real, high: real, low: real, close: real)
  {
    function End(): int {
      start + interval
    }

    // Positive prices with open and close inside the range.
    predicate WellFormed() {
      && open > 0.0 && high > 0.0 && low > 0.0 && close > 0.0
      && low <= Common.Min(open, close) && Common.Max(open, close) <= high
    }
  }

  // The whole minute at or before a time.
  function Floor(t: int): int {
    t / MINUTE * MINUTE
  }

  // Python's `value or default` for an optional time.
  function Or(value: Option<int>, default: int): int {
    if value.Some? && value.value != 0 then value.value else default
  }

  predicate Sorted(bars: seq<Bar>) {
    forall i, j :: 0 <= i < j < |bars| ==> bars[i].start <= bars[j].start
  }

  // Insert behind every bar that does not start later: the sort is stable.
  function Insert(bars: seq<Bar>, b: Bar): seq<Bar> {
    if bars == [] || bars[|bars| - 1].start <= b.start then bars + [b]
    else Insert(bars[..|bars| - 1], b) + [bars[|bars| - 1]]
  }

  // sorted(bars, key=start).
  function SortByStart(bars: seq<Bar>): seq<Bar> {
    if bars == [] then [] else Insert(SortByStart(bars[..|bars| - 1]), bars[|bars| - 1])
  }

  lemma {:induction false} InsertKeeps(bars: seq<Bar>, b: Bar)
    ensures multiset(Insert(bars, b)) == multiset(bars) + multiset{b}
  {
    if bars != [] && bars[|bars| - 1].start > b.start {
      InsertKeeps(bars[..|bars| - 1], b);
      assert bars == bars[..|bars| - 1] + [bars[|bars| - 1]];
    }
  }

  lemma {:induction false} InsertBounded(bars: seq<Bar>, b: Bar, most: int)
    requires b.start <= most && forall i :: 0 <= i < |bars| ==> bars[i].start <= most
    ensures forall i :: 0 <= i < |Insert(bars, b)| ==> Insert(bars, b)[i].start <= most
  {
    if bars != [] && bars[|bars| - 1].start > b.start {
      InsertBounded(bars[..|bars| - 1], b, most);
    }
  }

  lemma {:induction false} InsertSorted(bars: seq<Bar>, b: Bar)
    requires Sorted(bars)
    ensures Sorted(Insert(bars, b))
  {
    if bars != [] && bars[|bars| - 1].start > b.start {
      var front, last := bars[..|bars| - 1], bars[|bars| - 1];
      InsertSorted(front, b);
      InsertBounded(front, b, last.start);
    }
  }

  lemma {:induction false} SortKeeps(bars: seq<Bar>)
    ensures multiset(SortByStart(bars)) == multiset(bars)
  {
    if bars != [] {
      SortKeeps(bars[..|bars| - 1]);
      InsertKeeps(SortByStart(bars[..|bars| - 1]), bars[|bars| - 1]);
      assert bars == bars[..|bars| - 1] + [bars[|bars| - 1]];
    }
  }

  lemma {:induction false} SortOrders(bars: seq<Bar>)
    ensures Sorted(SortByStart(bars))
  {
    if bars != [] {
      SortOrders(bars[..|bars| - 1]);
      InsertSorted(SortByStart(bars[..|bars| - 1]), bars[|bars| - 1]);
    }
  }

  /** The sort orders the bars and keeps every one of them. */
  lemma SortByStartSorts(bars: seq<Bar>)
    ensures Sorted(SortByStart(bars)) && multiset(SortByStart(bars)) == multiset(bars)
  {
    SortKeeps(bars);
    SortOrders(bars);
  }

  lemma {:induction false} SortedAlready(bars: seq<Bar>)
    requires Sorted(bars)
    ensures SortByStart(bars) == bars
  {
    if bars != [] {
      SortedAlready(bars[..|bars| - 1]);
      assert |bars| > 1 ==> bars[|bars| - 2].start <= bars[|bars| - 1].start;
      assert bars == bars[..|bars| - 1] + [bars[|bars| - 1]];
    }
  }

  /** The same sort as a loop over the list. */
  method Sort(bars: seq<Bar>) returns (sorted: seq<Bar>)
    ensures sorted == SortByStart(bars)
    ensures Sorted(sorted) && multiset(sorted) == multiset(bars)
  {
    sorted := [];
    for i := 0 to |bars|
      invariant sorted == SortByStart(bars[..i])
    {
      assert bars[..i + 1][..i] == bars[..i];
      sorted := Insert(sorted, bars[i]);
    }
    assert bars[..|bars|] == bars;
    SortByStartSorts(bars);
  }
}
