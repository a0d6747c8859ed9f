// Order statistics of the forward reports: index lists sorted by value, counts of smaller and
// equal values, and tie-averaged ranks.
module Ranks {

  // ---------------------------------------------------------------- sorting index lists

  function Range(n: nat): (r: seq<nat>)
    ensures |r| == n && forall k :: 0 <= k < n ==> r[k] == k
  {
    seq(n, k requires 0 <= k < n => k)
  }

  predicate Indexes(values: seq<real>, order: seq<nat>) {
    forall k :: 0 <= k < |order| ==> order[k] < |values|
  }

  predicate Nondecreasing(values: seq<real>, order: seq<nat>)
    requires Indexes(values, order)
  {
    forall j, k :: 0 <= j <= k < |order| ==> values[order[j]] <= values[order[k]]
  }

  // Any way of listing all indexes by value, whatever it does with ties.
  ghost predicate Ordering(values: seq<real>, order: seq<nat>) {
    && |order| == |values|
    && Indexes(values, order)
    && multiset(order) == multiset(Range(|values|))
    && Nondecreasing(values, order)
  }

  function Insert(values: seq<real>, order: seq<nat>, i: nat): (r: seq<nat>)
    requires i < |values| && Indexes(values, order)
    ensures Indexes(values, r)
  {
    if order == [] || values[order[|order| - 1]] <= values[i] then order + [i]
    else Insert(values, order[..|order| - 1], i) + [order[|order| - 1]]
  }

  // sorted(range(n), key = values), on the first n indexes.
  function OrderOf(values: seq<real>, n: nat): (r: seq<nat>)
    requires n <= |values|
    ensures Indexes(values, r)
  {
    if n == 0 then [] else Insert(values, OrderOf(values, n - 1), n - 1)
  }

  lemma {:induction false} InsertKeeps(values: seq<real>, order: seq<nat>, i: nat)
    requires i < |values| && Indexes(values, order)
    ensures |Insert(values, order, i)| == |order| + 1
    ensures multiset(Insert(values, order, i)) == multiset(order) + multiset{i}
  {
    if order != [] && values[order[|order| - 1]] > values[i] {
      InsertKeeps(values, order[..|order| - 1], i);
      assert order == order[..|order| - 1] + [order[|order| - 1]];
    }
  }

  lemma {:induction false} InsertBounded(values: seq<real>, order: seq<nat>, i: nat, most: real)
    requires i < |values| && Indexes(values, order) && values[i] <= most
    requires forall k :: 0 <= k < |order| ==> values[order[k]] <= most
    ensures forall k :: 0 <= k < |Insert(values, order, i)| ==> values[Insert(values, order, i)[k]] <= most
  {
    if order != [] && values[order[|order| - 1]] > values[i] {
      InsertBounded(values, order[..|order| - 1], i, most);
    }
  }

  lemma {:induction false} InsertSorted(values: seq<real>, order: seq<nat>, i: nat)
    requires i < |values| && Indexes(values, order) && Nondecreasing(values, order)
    ensures Nondecreasing(values, Insert(values, order, i))
  {
    if order != [] && values[order[|order| - 1]] > values[i] {
      var front, last := order[..|order| - 1], order[|order| - 1];
      InsertSorted(values, front, i);
      InsertBounded(values, front, i, values[last]);
    }
  }

  lemma RangeGrows(n: nat)
    ensures multiset(Range(n + 1)) == multiset(Range(n)) + multiset{n}
  {
    assert Range(n + 1) == Range(n) + [n];
  }

  lemma {:induction false} OrderOfPrefix(values: seq<real>, n: nat)
    requires n <= |values|
    ensures |OrderOf(values, n)| == n && Nondecreasing(values, OrderOf(values, n))
    ensures multiset(OrderOf(values, n)) == multiset(Range(n))
  {
    if n > 0 {
      OrderOfPrefix(values, n - 1);
      var order := OrderOf(values, n - 1);
      InsertSorted(values, order, n - 1);
      InsertKeeps(values, order, n - 1);
      assert OrderOf(values, n) == Insert(values, order, n - 1);
      RangeGrows(n - 1);
    } else {
      assert Range(0) == [];
    }
  }

  /** The sort used everywhere in this file. */
  method SortedIndexes(values: seq<real>) returns (order: seq<nat>)
    ensures order == OrderOf(values, |values|) && Ordering(values, order)
  {
    order := [];
    for i := 0 to |values|
      invariant order == OrderOf(values, i)
    {
      order := Insert(values, order, i);
    }
    OrderOfPrefix(values, |values|);
  }

  lemma {:induction false} RangeOnce(n: nat, x: nat)
    ensures multiset(Range(n))[x] <= 1
    ensures x in multiset(Range(n)) <==> x < n
  {
    if n > 0 {
      RangeOnce(n - 1, x);
      assert Range(n) == Range(n - 1) + [n - 1];
    }
  }

  lemma ListedTwice(order: seq<nat>, j: nat, k: nat)
    requires j < k < |order| && order[j] == order[k]
    ensures multiset(order)[order[j]] >= 2
  {
    assert order == order[..k] + [order[k]] + order[k + 1..];
    assert order[j] in order[..k];
    assert order[j] in multiset(order[..k]);
  }

  /** An ordering lists every index exactly once. */
  lemma OrderingIsBijective(values: seq<real>, order: seq<nat>)
    requires Ordering(values, order)
    ensures forall j, k :: 0 <= j < k < |order| ==> order[j] != order[k]
    ensures forall i :: 0 <= i < |values| ==> i in order
  {
    forall j, k | 0 <= j < k < |order| ensures order[j] != order[k] {
      if order[j] == order[k] {
        RangeOnce(|values|, order[j]);
        ListedTwice(order, j, k);
        assert false;
      }
    }
    forall i: nat | 0 <= i < |values| ensures i in order {
      RangeOnce(|values|, i);
      assert i in multiset(order);
    }
  }

  // ---------------------------------------------------------------- counting

  // Listed values below v, or at most v.
  function Count(values: seq<real>, list: seq<nat>, v: real, strict: bool): (r: nat)
    requires Indexes(values, list)
    ensures r <= |list|
  {
    if list == [] then 0
    else
      var x := values[list[|list| - 1]];
      Count(values, list[..|list| - 1], v, strict) + if x < v || (!strict && x == v) then 1 else 0
  }

  function Less(values: seq<real>, v: real): nat {
    Count(values, Range(|values|), v, true)
  }

  function AtMost(values: seq<real>, v: real): nat {
    Count(values, Range(|values|), v, false)
  }

  lemma {:induction false} CountAppend(values: seq<real>, a: seq<nat>, b: seq<nat>, v: real, strict: bool)
    requires Indexes(values, a) && Indexes(values, b)
    ensures Indexes(values, a + b)
    ensures Count(values, a + b, v, strict) == Count(values, a, v, strict) + Count(values, b, v, strict)
  {
    if b == [] {
      assert a + b == a;
    } else {
      CountAppend(values, a, b[..|b| - 1], v, strict);
      assert (a + b)[..|a + b| - 1] == a + b[..|b| - 1];
    }
  }

  lemma CancelOne(a: multiset<nat>, b: multiset<nat>, x: nat)
    requires a + multiset{x} == b + multiset{x}
    ensures a == b
  {
    assert a == a + multiset{x} - multiset{x};
    assert b == b + multiset{x} - multiset{x};
  }

  lemma TakenOut(before: seq<nat>, x: nat, after: seq<nat>)
    ensures multiset(before + [x] + after) == multiset(before + after) + multiset{x}
  {
  }

  // One entry of a list, taken out of a permutation of it.
  lemma SplitAt(a: seq<nat>, front: seq<nat>, x: nat) returns (before: seq<nat>, after: seq<nat>)
    requires multiset(a) == multiset(front + [x])
    ensures a == before + [x] + after
    ensures multiset(before + after) == multiset(front)
  {
    assert x in multiset(front + [x]);
    var p :| 0 <= p < |a| && a[p] == x;
    before, after := a[..p], a[p + 1..];
    assert a == before + [x] + after;
    TakenOut(before, x, after);
    CancelOne(multiset(before + after), multiset(front), x);
  }

  lemma CountWithout(values: seq<real>, a: seq<nat>, x: nat, b: seq<nat>, v: real, strict: bool)
    requires Indexes(values, a) && Indexes(values, b) && x < |values|
    ensures Indexes(values, a + [x] + b) && Indexes(values, a + b) && Indexes(values, [x])
    ensures Count(values, a + [x] + b, v, strict) == Count(values, a + b, v, strict) + Count(values, [x], v, strict)
  {
    CountAppend(values, a, b, v, strict);
    CountAppend(values, a, [x], v, strict);
    CountAppend(values, a + [x], b, v, strict);
  }

  lemma {:induction false} CountPermuted(values: seq<real>, a: seq<nat>, b: seq<nat>, v: real, strict: bool)
    requires Indexes(values, a) && Indexes(values, b) && multiset(a) == multiset(b)
    ensures Count(values, a, v, strict) == Count(values, b, v, strict)
    decreases |b|
  {
    if b == [] {
      assert |multiset(a)| == 0;
    } else {
      var front, x := b[..|b| - 1], b[|b| - 1];
      assert b == front + [x] == front + [x] + [];
      var before, after := SplitAt(a, front, x);
      assert Indexes(values, before + [x] + after);
      assert forall k :: 0 <= k < |after| ==> after[k] == (before + [x] + after)[|before| + 1 + k];
      assert forall k :: 0 <= k < |before| ==> before[k] == (before + [x] + after)[k];
      CountWithout(values, before, x, after, v, strict);
      CountWithout(values, front, x, [], v, strict);
      assert front + [] == front;
      CountPermuted(values, before + after, front, v, strict);
    }
  }

  // A list whose first c entries count and whose others do not has count c.
  lemma {:induction false} Threshold(values: seq<real>, list: seq<nat>, v: real, strict: bool, c: nat)
    requires Indexes(values, list) && c <= |list|
    requires forall k :: 0 <= k < c ==> values[list[k]] < v || (!strict && values[list[k]] == v)
    requires forall k :: c <= k < |list| ==> !(values[list[k]] < v || (!strict && values[list[k]] == v))
    ensures Count(values, list, v, strict) == c
  {
    if list != [] {
      Threshold(values, list[..|list| - 1], v, strict, if c == |list| then c - 1 else c);
    }
  }

  /** In any ordering, the entries with value v stand at the positions Less(v) to AtMost(v) - 1. */
  lemma RunBounds(values: seq<real>, order: seq<nat>, v: real, lo: nat, hi: nat)
    requires Ordering(values, order) && lo <= hi <= |order|
    requires forall k :: 0 <= k < lo ==> values[order[k]] < v
    requires forall k :: lo <= k < hi ==> values[order[k]] == v
    requires forall k :: hi <= k < |order| ==> values[order[k]] > v
    ensures Less(values, v) == lo && AtMost(values, v) == hi
  {
    Threshold(values, order, v, true, lo);
    Threshold(values, order, v, false, hi);
    CountPermuted(values, order, Range(|values|), v, true);
    CountPermuted(values, order, Range(|values|), v, false);
  }

  // ---------------------------------------------------------------- ranks

  // The number of smaller values plus half of one more than the number of equal ones.
  function RankOf(values: seq<real>, v: real): real {
    Less(values, v) as real + (AtMost(values, v) - Less(values, v) + 1) as real / 2.0
  }

  // The end of the run of equal values that starts at position i of the ordering.
  method RunEnd(values: seq<real>, order: seq<nat>, i: nat) returns (j: nat)
    requires Indexes(values, order) && i < |order|
    ensures i <= j < |order| && forall k :: i <= k <= j ==> values[order[k]] == values[order[i]]
    ensures j + 1 < |order| ==> values[order[j + 1]] != values[order[i]]
  {
    j := i;
    while j + 1 < |order| && values[order[j + 1]] == values[order[i]]
      invariant i <= j < |order|
      invariant forall k :: i <= k <= j ==> values[order[k]] == values[order[i]]
    {
      j := j + 1;
    }
  }

  // The first k positions of the ordering have their ranks.
  predicate Ranked(values: seq<real>, order: seq<nat>, result: seq<real>, k: nat)
    requires Indexes(values, order) && k <= |order|
  {
    |result| == |values| && forall m :: 0 <= m < k ==> result[order[m]] == RankOf(values, values[order[m]])
  }

  // One run of equal values takes its common rank.
  method RankRun(values: seq<real>, order: seq<nat>, before: seq<real>, i: nat, j: nat) returns (result: seq<real>)
    requires Ordering(values, order) && i <= j < |order| && Ranked(values, order, before, i)
    requires forall k :: i <= k <= j ==> values[order[k]] == values[order[i]]
    requires Less(values, values[order[i]]) == i && AtMost(values, values[order[i]]) == j + 1
    ensures Ranked(values, order, result, j + 1)
  {
    result := before;
    var rank := (i + j) as real / 2.0 + 1.0;
    for k := i to j + 1
      invariant Ranked(values, order, result, k)
    {
      result := result[order[k] := rank];
    }
  }

  /** Tie-averaged ranks, run by run over the sorted indexes. */
  method TieAveraged(values: seq<real>) returns (result: seq<real>)
    ensures |result| == |values|
    ensures forall i :: 0 <= i < |values| ==> result[i] == RankOf(values, values[i])
  {
    var order := SortedIndexes(values);
    OrderingIsBijective(values, order);
    result := seq(|values|, _ => 0.0);
    var i := 0;
    while i < |order|
      invariant 0 <= i <= |order| == |values| && Ranked(values, order, result, i)
      invariant 0 < i < |order| ==> values[order[i - 1]] < values[order[i]]
    {
      var j := RunEnd(values, order, i);
      RunBounds(values, order, values[order[i]], i, j + 1);
      result := RankRun(values, order, result, i, j);
      i := j + 1;
    }
    forall m: nat | m < |values| ensures result[m] == RankOf(values, values[m]) {
      assert m in order;
    }
  }

  // Sum over the entries of b of the entries of a below them plus those not above them.
  function Faced(values: seq<real>, a: seq<nat>, b: seq<nat>): nat
    requires Indexes(values, a) && Indexes(values, b)
  {
    if b == [] then 0
    else
      var v := values[b[|b| - 1]];
      Faced(values, a, b[..|b| - 1]) + Count(values, a, v, true) + Count(values, a, v, false)
  }

  lemma {:induction false} FacedSplit(values: seq<real>, a: seq<nat>, x: nat, b: seq<nat>)
    requires Indexes(values, a) && Indexes(values, b) && x < |values|
    ensures Faced(values, a + [x], b) == Faced(values, a, b) + Faced(values, [x], b)
  {
    if b != [] {
      FacedSplit(values, a, x, b[..|b| - 1]);
      CountAppend(values, a, [x], values[b[|b| - 1]], true);
      CountAppend(values, a, [x], values[b[|b| - 1]], false);
    }
  }

  lemma FacedOne(values: seq<real>, a: seq<nat>, x: nat)
    requires Indexes(values, a) && x < |values|
    ensures Faced(values, a, [x]) == Count(values, a, values[x], true) + Count(values, a, values[x], false)
  {
    assert Faced(values, a, [x][..0]) == 0;
  }

  // Each pair of entries meets twice in the two directions together.
  lemma {:induction false} OneAgainstAll(values: seq<real>, x: nat, b: seq<nat>)
    requires Indexes(values, b) && x < |values|
    ensures Faced(values, [x], b) + Faced(values, b, [x]) == 2 * |b|
  {
    FacedOne(values, b, x);
    if b != [] {
      OneAgainstAll(values, x, b[..|b| - 1]);
      FacedOne(values, b[..|b| - 1], x);
    }
  }

  lemma OneMore(m: nat, n: nat)
    ensures 2 * m * (n + 1) == 2 * m * n + 2 * m
  {
  }

  lemma {:induction false} AllAgainstAll(values: seq<real>, a: seq<nat>, b: seq<nat>)
    requires Indexes(values, a) && Indexes(values, b)
    ensures Faced(values, a, b) + Faced(values, b, a) == 2 * |a| * |b|
  {
    if b == [] {
      NoOneFaced(values, a);
    } else {
      var front, x := b[..|b| - 1], b[|b| - 1];
      AllAgainstAll(values, a, front);
      FacedSplit(values, front, x, a);
      assert b == front + [x];
      OneAgainstAll(values, x, a);
      FacedOne(values, a, x);
      OneMore(|a|, |front|);
    }
  }

  lemma {:induction false} NoOneFaced(values: seq<real>, b: seq<nat>)
    requires Indexes(values, b)
    ensures Faced(values, [], b) == 0
  {
    if b != [] {
      NoOneFaced(values, b[..|b| - 1]);
    }
  }

  function Sum(xs: seq<real>): real {
    if xs == [] then 0.0 else Sum(xs[..|xs| - 1]) + xs[|xs| - 1]
  }

  function RanksOf(values: seq<real>): (r: seq<real>)
    ensures |r| == |values|
    ensures forall i :: 0 <= i < |values| ==> r[i] == RankOf(values, values[i])
  {
    seq(|values|, i requires 0 <= i < |values| => RankOf(values, values[i]))
  }

  lemma {:induction false} SumOfFirstRanks(values: seq<real>, n: nat)
    requires n <= |values|
    ensures Sum(RanksOf(values)[..n]) * 2.0 == (Faced(values, Range(|values|), Range(n)) + n) as real
  {
    if n == 0 {
      assert RanksOf(values)[..0] == [] && Range(0) == [];
    } else {
      SumOfFirstRanks(values, n - 1);
      var r := RanksOf(values);
      assert r[..n][..n - 1] == r[..n - 1] && r[..n][n - 1] == RankOf(values, values[n - 1]);
      assert Range(n)[..n - 1] == Range(n - 1);
    }
  }

  lemma Halved(f: nat, n: nat)
    requires f + f == 2 * n * n
    ensures f + n == n * (n + 1)
  {
    assert 2 * n * n == n * n + n * n;
  }

  /** Whatever the ties, the ranks of n values add up to n (n + 1) / 2. */
  lemma RanksSum(values: seq<real>)
    ensures Sum(RanksOf(values)) * 2.0 == (|values| * (|values| + 1)) as real
  {
    var n := |values|;
    SumOfFirstRanks(values, n);
    assert RanksOf(values)[..n] == RanksOf(values);
    AllAgainstAll(values, Range(n), Range(n));
    Halved(Faced(values, Range(n), Range(n)), n);
  }

  // Two columns that compare alike, entry by entry: one is a strictly increasing transform of the other.
  ghost predicate SameOrder(xs: seq<real>, ys: seq<real>) {
    && |xs| == |ys|
    && forall i, j :: 0 <= i < |xs| && 0 <= j < |xs| ==> (xs[i] < xs[j] <==> ys[i] < ys[j])
  }

  ghost predicate Opposite(xs: seq<real>, ys: seq<real>) {
    && |xs| == |ys|
    && forall i, j :: 0 <= i < |xs| && 0 <= j < |xs| ==> (xs[i] < xs[j] <==> ys[i] > ys[j])
  }

  lemma {:induction false} SameCounts(xs: seq<real>, ys: seq<real>, list: seq<nat>, i: nat, strict: bool)
    requires SameOrder(xs, ys) && Indexes(xs, list) && Indexes(ys, list) && i < |xs|
    ensures Count(xs, list, xs[i], strict) == Count(ys, list, ys[i], strict)
  {
    if list != [] {
      SameCounts(xs, ys, list[..|list| - 1], i, strict);
      var k := list[|list| - 1];
      assert xs[k] < xs[i] <==> ys[k] < ys[i];
      assert xs[i] < xs[k] <==> ys[i] < ys[k];
    }
  }

  /** Ranks see order only: a strictly increasing transform changes none of them. */
  lemma RanksSeeOrderOnly(xs: seq<real>, ys: seq<real>)
    requires SameOrder(xs, ys)
    ensures RanksOf(xs) == RanksOf(ys)
  {
    forall i: nat | i < |xs| ensures RankOf(xs, xs[i]) == RankOf(ys, ys[i]) {
      SameCounts(xs, ys, Range(|xs|), i, true);
      SameCounts(xs, ys, Range(|xs|), i, false);
    }
  }

  lemma {:induction false} OppositeCounts(xs: seq<real>, ys: seq<real>, list: seq<nat>, i: nat)
    requires Opposite(xs, ys) && Indexes(xs, list) && Indexes(ys, list) && i < |xs|
    ensures Count(xs, list, xs[i], true) + Count(ys, list, ys[i], false) == |list|
  {
    if list != [] {
      OppositeCounts(xs, ys, list[..|list| - 1], i);
      var k := list[|list| - 1];
      assert xs[k] < xs[i] <==> ys[k] > ys[i];
    }
  }

  /** A strictly decreasing transform mirrors them. */
  lemma RanksMirror(xs: seq<real>, ys: seq<real>)
    requires Opposite(xs, ys)
    ensures forall i :: 0 <= i < |xs| ==> RanksOf(ys)[i] == (|xs| + 1) as real - RanksOf(xs)[i]
  {
    forall i: nat | i < |xs| ensures RankOf(ys, ys[i]) == (|xs| + 1) as real - RankOf(xs, xs[i]) {
      OppositeCounts(xs, ys, Range(|xs|), i);
      OppositeCounts(ys, xs, Range(|xs|), i);
    }
  }

  lemma {:induction false} CountGrows(values: seq<real>, list: seq<nat>, v: real, w: real, strict: bool)
    requires Indexes(values, list) && v <= w
    ensures Count(values, list, v, strict) <= Count(values, list, w, strict)
    ensures Count(values, list, v, true) <= Count(values, list, v, false)
    ensures v < w ==> Count(values, list, v, false) <= Count(values, list, w, true)
  {
    if list != [] {
      CountGrows(values, list[..|list| - 1], v, w, strict);
    }
  }

  lemma {:induction false} CountsItself(values: seq<real>, list: seq<nat>, k: nat)
    requires Indexes(values, list) && k < |list|
    ensures Count(values, list, values[list[k]], true) < Count(values, list, values[list[k]], false)
  {
    CountGrows(values, list[..|list| - 1], values[list[k]], values[list[k]], true);
    if k < |list| - 1 {
      CountsItself(values, list[..|list| - 1], k);
    }
  }

  /** And they keep the order of the values they rank. */
  lemma RanksKeepOrder(values: seq<real>, i: nat, j: nat)
    requires i < |values| && j < |values|
    ensures values[i] < values[j] <==> RankOf(values, values[i]) < RankOf(values, values[j])
  {
    forall a: nat, b: nat | a < |values| && b < |values| && values[a] < values[b]
      ensures RankOf(values, values[a]) < RankOf(values, values[b])
    {
      CountGrows(values, Range(|values|), values[a], values[b], true);
      CountGrows(values, Range(|values|), values[a], values[b], false);
      CountsItself(values, Range(|values|), a);
      CountsItself(values, Range(|values|), b);
    }
  }
}
