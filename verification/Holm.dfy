// Holm's step-down adjustment of p-values.
module Holm {
  import opened Common
  import opened Ranks

  // What the r-th smallest of n values contributes.
  function Scaled(n: nat, r: nat, p: real): real
    requires r <= n
  {
    Min(1.0, (n - r) as real * p)
  }

  // The running maximum after position k of an ordering.
  function Running(values: seq<real>, order: seq<nat>, k: nat): (r: real)
    requires Indexes(values, order) && k < |order| <= |values|
    ensures 0.0 <= r <= 1.0
  {
    var before := if k == 0 then 0.0 else Running(values, order, k - 1);
    Max(before, Scaled(|values|, k, values[order[k]]))
  }

  // Unknown p-values count as 1.
  function Known(p: Option<real>): real {
    if p.None? then 1.0 else p.value
  }

  function KnownAll(ps: seq<Option<real>>): (r: seq<real>)
    ensures |r| == |ps| && forall i :: 0 <= i < |ps| ==> r[i] == Known(ps[i])
  {
    seq(|ps|, i requires 0 <= i < |ps| => Known(ps[i]))
  }

  // The index of a value's contribution, ties counted at the front of their run.
  function Term(values: seq<real>, j: nat): real
    requires j < |values|
  {
    Scaled(|values|, Less(values, values[j]), values[j])
  }

  // The adjusted value of index i, without any ordering: the largest contribution among the values
  // not above it, and never below zero.
  ghost predicate Adjusted(values: seq<real>, i: nat, r: real)
    requires i < |values|
  {
    && r >= 0.0
    && (forall j: nat :: j < |values| && values[j] <= values[i] ==> Term(values, j) <= r)
    && (r == 0.0 || exists j: nat :: j < |values| && values[j] <= values[i] && Term(values, j) == r)
  }

  // Position k's running maximum stands at the index that holds position k.
  ghost predicate Written(values: seq<real>, order: seq<nat>, adjusted: seq<real>, k: nat)
    requires Indexes(values, order) && k < |order| <= |values| == |adjusted|
  {
    adjusted[order[k]] == Running(values, order, k)
  }

  // The adjustment loop over any list of distinct indexes.
  method Adjust(values: seq<real>, order: seq<nat>) returns (adjusted: seq<real>)
    requires Indexes(values, order) && |order| == |values|
    requires forall j, k :: 0 <= j < k < |order| ==> order[j] != order[k]
    ensures |adjusted| == |values|
    ensures forall k :: 0 <= k < |order| ==> Written(values, order, adjusted, k)
  {
    adjusted := seq(|values|, _ => 0.0);
    var running := 0.0;
    for rank := 0 to |order|
      invariant |adjusted| == |values|
      invariant running == if rank == 0 then 0.0 else Running(values, order, rank - 1)
      invariant forall k :: 0 <= k < rank ==> Written(values, order, adjusted, k)
    {
      running := Max(running, Scaled(|values|, rank, values[order[rank]]));
      ghost var was := adjusted;
      adjusted := adjusted[order[rank] := running];
      forall k | 0 <= k <= rank ensures Written(values, order, adjusted, k) {
        assert k < rank ==> order[k] != order[rank] && Written(values, order, was, k);
      }
    }
  }

  /** Every p-value gets its adjusted value. */
  method Holm(ps: seq<Option<real>>) returns (adjusted: seq<real>)
    ensures |adjusted| == |ps|
    ensures forall i :: 0 <= i < |ps| ==> Adjusted(KnownAll(ps), i, adjusted[i])
  {
    var values := KnownAll(ps);
    var order := SortedIndexes(values);
    OrderingIsBijective(values, order);
    adjusted := Adjust(values, order);
    AllAdjusted(values, order, adjusted);
  }

  lemma AllAdjusted(values: seq<real>, order: seq<nat>, adjusted: seq<real>)
    requires Ordering(values, order) && |adjusted| == |values|
    requires forall k :: 0 <= k < |order| ==> Written(values, order, adjusted, k)
    ensures forall i :: 0 <= i < |values| ==> Adjusted(values, i, adjusted[i])
  {
    OrderingIsBijective(values, order);
    forall i: nat | i < |values| ensures Adjusted(values, i, adjusted[i]) {
      assert i in order;
      var k :| 0 <= k < |order| && order[k] == i;
      assert Written(values, order, adjusted, k);
      RunningIsAdjusted(values, order, k);
    }
  }

  // ---------------------------------------------------------------- the value without the ordering

  lemma {:induction false} RunningGrows(values: seq<real>, order: seq<nat>, j: nat, k: nat)
    requires Indexes(values, order) && j <= k < |order| <= |values|
    ensures Running(values, order, j) <= Running(values, order, k)
  {
    if j < k {
      RunningGrows(values, order, j, k - 1);
    }
  }

  // The number of smaller values is the position of the first of a run of ties.
  lemma {:induction false} FrontOfRun(values: seq<real>, order: seq<nat>, p: nat) returns (f: nat)
    requires Ordering(values, order) && p < |order|
    ensures f <= p && values[order[f]] == values[order[p]]
    ensures f == 0 || values[order[f - 1]] < values[order[p]]
    ensures Less(values, values[order[p]]) == f
  {
    if p > 0 && values[order[p - 1]] == values[order[p]] {
      f := FrontOfRun(values, order, p - 1);
    } else {
      f := p;
      Threshold(values, order, values[order[p]], true, p);
      CountPermuted(values, order, Range(|values|), values[order[p]], true);
    }
  }

  lemma RunningIsUpper(values: seq<real>, order: seq<nat>, k: nat, j: nat)
    requires Ordering(values, order) && k < |order| && j < |values| && values[j] <= values[order[k]]
    ensures Term(values, j) <= Running(values, order, k)
  {
    OrderingIsBijective(values, order);
    assert j in order;
    var p :| 0 <= p < |order| && order[p] == j;
    var f := FrontOfRun(values, order, p);
    if f > k {
      assert values[order[k]] == values[order[f]];
      var g := FrontOfRun(values, order, k);
    }
    RunningGrows(values, order, f, k);
  }

  // Inside a run of ties the later contributions never win.
  lemma LaterTieAddsNothing(n: nat, k: nat, p: real)
    requires 0 < k <= n
    ensures Scaled(n, k, p) <= Max(0.0, Scaled(n, k - 1, p))
  {
    assert (n - (k - 1)) as real * p == (n - k) as real * p + p;
    if p <= 0.0 {
      assert (n - k) as real * p <= 0.0;
    }
  }

  lemma {:induction false} RunningIsAttained(values: seq<real>, order: seq<nat>, k: nat)
    requires Ordering(values, order) && k < |order|
    ensures Running(values, order, k) == 0.0
         || exists j: nat :: j < |values| && values[j] <= values[order[k]] && Term(values, j) == Running(values, order, k)
  {
    var t := Scaled(|values|, k, values[order[k]]);
    var f := FrontOfRun(values, order, k);
    if k > 0 {
      RunningIsAttained(values, order, k - 1);
    }
    if f == k {
      assert Term(values, order[k]) == t;
    } else {
      LaterTieAddsNothing(|values|, k, values[order[k]]);
      assert values[order[k - 1]] == values[order[k]];
    }
  }

  /** The running maximum at an index's position is its adjusted value. */
  lemma RunningIsAdjusted(values: seq<real>, order: seq<nat>, k: nat)
    requires Ordering(values, order) && k < |order|
    ensures Adjusted(values, order[k], Running(values, order, k))
  {
    forall j: nat | j < |values| && values[j] <= values[order[k]] ensures Term(values, j) <= Running(values, order, k) {
      RunningIsUpper(values, order, k, j);
    }
    RunningIsAttained(values, order, k);
  }

  /** So the order a sort leaves ties in does not matter, and equal p-values are adjusted alike. */
  lemma TieOrderIrrelevant(values: seq<real>, a: seq<nat>, b: seq<nat>, j: nat, k: nat)
    requires Ordering(values, a) && Ordering(values, b) && j < |a| && k < |b|
    requires values[a[j]] == values[b[k]]
    ensures Running(values, a, j) == Running(values, b, k)
  {
    RunningIsAdjusted(values, a, j);
    RunningIsAdjusted(values, b, k);
  }

  lemma ScaledDominates(n: nat, r: nat, p: real)
    requires r < n && 0.0 <= p <= 1.0
    ensures Scaled(n, r, p) >= p
  {
    var c := (n - r) as real;
    assert (c - 1.0) * p >= 0.0;
  }

  lemma TermDominates(values: seq<real>, i: nat)
    requires i < |values| && 0.0 <= values[i] <= 1.0
    ensures Term(values, i) >= values[i]
  {
    CountsItself(values, Range(|values|), i);
    assert values[Range(|values|)[i]] == values[i];
    ScaledDominates(|values|, Less(values, values[i]), values[i]);
  }

  /** Adjusted values keep the order of the raw ones and dominate them. */
  lemma AdjustedOrderAndDominance(values: seq<real>, i: nat, j: nat, ri: real, rj: real)
    requires i < |values| && j < |values| && Adjusted(values, i, ri) && Adjusted(values, j, rj)
    ensures values[i] <= values[j] ==> ri <= rj
    ensures 0.0 <= ri <= 1.0
    ensures values[i] <= 1.0 ==> values[i] <= ri
  {
    if 0.0 <= values[i] <= 1.0 {
      TermDominates(values, i);
    }
    if values[i] <= values[j] && ri != 0.0 {
      var m: nat :| m < |values| && values[m] <= values[i] && Term(values, m) == ri;
    }
  }

  // ---------------------------------------------------------------- the step-down procedure

  // Holm's procedure at level alpha, from the k-th smallest p-value on: go on rejecting while the
  // value is at most alpha over the number of hypotheses left; the result is where it stops.
  function StopsAt(values: seq<real>, order: seq<nat>, alpha: real, k: nat): (r: nat)
    requires Indexes(values, order) && k <= |order| == |values|
    ensures k <= r <= |order|
    decreases |order| - k
  {
    if k < |order| && values[order[k]] <= alpha / (|order| - k) as real
    then StopsAt(values, order, alpha, k + 1) else k
  }

  lemma ScaledAgainstLevel(n: nat, k: nat, p: real, alpha: real)
    requires k < n && 0.0 <= alpha < 1.0
    ensures Scaled(n, k, p) <= alpha <==> p <= alpha / (n - k) as real
  {
    var m := (n - k) as real;
    var q := alpha / m;
    assert q * m == alpha;
    if p <= q {
      assert m * p <= m * q;
    } else {
      assert m * p > m * q;
    }
  }

  lemma {:induction false} StopsBeyond(values: seq<real>, order: seq<nat>, alpha: real, from: nat, k: nat)
    requires Indexes(values, order) && from <= k < |order| == |values| && 0.0 <= alpha < 1.0
    requires from == 0 || Running(values, order, from - 1) <= alpha
    ensures Running(values, order, k) <= alpha <==> k < StopsAt(values, order, alpha, from)
    decreases k - from
  {
    ScaledAgainstLevel(|values|, from, values[order[from]], alpha);
    if values[order[from]] <= alpha / (|order| - from) as real {
      if from < k {
        StopsBeyond(values, order, alpha, from + 1, k);
      }
    } else {
      RunningGrows(values, order, from, k);
    }
  }

  /** Comparing an adjusted p-value with a level is exactly running Holm's procedure at that level,
      over any ordering of the p-values. */
  lemma AdjustedIsStepDown(values: seq<real>, order: seq<nat>, alpha: real, k: nat, r: real)
    requires Ordering(values, order) && k < |order| && 0.0 <= alpha < 1.0
    requires Adjusted(values, order[k], r)
    ensures r <= alpha <==> k < StopsAt(values, order, alpha, 0)
  {
    StopsBeyond(values, order, alpha, 0, k);
    RunningIsAdjusted(values, order, k);
    AdjustedOrderAndDominance(values, order[k], order[k], r, Running(values, order, k));
    AdjustedOrderAndDominance(values, order[k], order[k], Running(values, order, k), r);
  }
}
