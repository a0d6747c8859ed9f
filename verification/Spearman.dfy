// Spearman's rank correlation: the three sums it is made of. The coefficient itself is
// sxy / sqrt(sxx * syy).
module Spearman {
  import opened Common
  import opened Ranks

  datatype Sums = Sums(sxy: real, sxx: real, syy: real)

  function Mean(xs: seq<real>): real
    requires xs != []
  {
    Sum(xs) / |xs| as real
  }

  // The deviations of a column from a centre.
  function Deviations(xs: seq<real>, m: real): (r: seq<real>)
    ensures |r| == |xs| && forall i :: 0 <= i < |xs| ==> r[i] == xs[i] - m
  {
    seq(|xs|, i requires 0 <= i < |xs| => xs[i] - m)
  }

  lemma {:induction false} SumOfDeviations(xs: seq<real>, m: real)
    ensures Sum(Deviations(xs, m)) == Sum(xs) - |xs| as real * m
  {
    if xs != [] {
      var n := |xs| - 1;
      SumOfDeviations(xs[..n], m);
      assert Deviations(xs, m)[..n] == Deviations(xs[..n], m);
      assert (n + 1) as real * m == n as real * m + m;
    }
  }

  lemma Quotient(sum: real, n: real)
    requires n > 0.0
    ensures n * (sum / n) == sum
  {
  }

  lemma Smaller(n: real, a: real, b: real)
    requires n > 0.0 && n * a == n * b
    ensures a == b
  {
    assert a == n * a / n && b == n * b / n;
  }

  /** The mean is the one centre whose deviations cancel. */
  lemma MeanCancels(xs: seq<real>, m: real)
    requires xs != []
    ensures Sum(Deviations(xs, m)) == 0.0 <==> m == Mean(xs)
  {
    SumOfDeviations(xs, m);
    Quotient(Sum(xs), |xs| as real);
    if Sum(Deviations(xs, m)) == 0.0 {
      Smaller(|xs| as real, m, Mean(xs));
    }
  }

  lemma {:induction false} CastProduct(n: nat)
    ensures (n * (n + 1)) as real == n as real * (n as real + 1.0)
  {
    if n > 0 {
      CastProduct(n - 1);
      assert n * (n + 1) == (n - 1) * n + 2 * n;
      var x := (n - 1) as real;
      assert n as real == x + 1.0;
      assert (x + 1.0) * (x + 2.0) == x * (x + 1.0) + 2.0 * (x + 1.0);
    }
  }

  lemma HalfOfProduct(n: real, sum: real)
    requires n > 0.0 && sum * 2.0 == n * (n + 1.0)
    ensures sum / n == (n + 1.0) / 2.0
  {
    assert n * ((n + 1.0) / 2.0) == sum;
    Quotient(sum, n);
    Smaller(n, sum / n, (n + 1.0) / 2.0);
  }

  /** The mean of any column of n ranks, whatever its ties, is (n + 1) / 2. */
  lemma MeanOfRanks(values: seq<real>)
    requires values != []
    ensures Mean(RanksOf(values)) == (|values| as real + 1.0) / 2.0
  {
    RanksSum(values);
    CastProduct(|values|);
    HalfOfProduct(|values| as real, Sum(RanksOf(values)));
  }

  function Product(a: real, b: real): real {
    a * b
  }

  // Sum of the products of deviations from mx and my.
  function Cross(xs: seq<real>, mx: real, ys: seq<real>, my: real): real
    requires |xs| == |ys|
  {
    if xs == [] then 0.0
    else
      var n := |xs| - 1;
      Cross(xs[..n], mx, ys[..n], my) + Product(xs[n] - mx, ys[n] - my)
  }

  // The sums for two columns of equal length.
  function SumsOf(x: seq<real>, y: seq<real>): Sums
    requires |x| == |y| > 0
  {
    SumsAt(x, Mean(x), y, Mean(y))
  }

  predicate Bounded(sums: Sums) {
    sums.sxx >= 0.0 && sums.syy >= 0.0 && sums.sxy * sums.sxy <= sums.sxx * sums.syy
  }

  lemma Square(x: real)
    ensures x * x >= 0.0
  {
  }

  lemma Positive(a: real, b: real)
    requires a > 0.0 && b > 0.0
    ensures a * b > 0.0
  {
  }

  lemma RootOrder(p: real, q: real)
    requires p >= 0.0 && p * p >= q * q
    ensures p >= q
  {
    if q > p {
      Positive(q - p, q + p);
    }
  }

  // x b^2 + y a^2 >= 2 z a b when z^2 <= x y.
  lemma CrossTerm(x: real, y: real, z: real, a: real, b: real)
    requires x >= 0.0 && y >= 0.0 && z * z <= x * y
    ensures x * (b * b) + y * (a * a) >= 2.0 * (z * (a * b))
  {
    var u, v, w := x * (b * b), y * (a * a), z * (a * b);
    Square(a);
    Square(b);
    Square(a * b);
    Square(u - v);
    var gap, area := x * y - z * z, (a * b) * (a * b);
    assert gap * area >= 0.0;
    assert u * v == (x * y) * area && w * w == (z * z) * area;
    assert u * v - w * w == gap * area;
    assert (u + v) * (u + v) == (u - v) * (u - v) + 4.0 * (u * v);
    RootOrder(u + v, 2.0 * w);
  }

  lemma BoundedStep(before: Sums, a: real, b: real, after: Sums)
    requires Bounded(before)
    requires after.sxy == before.sxy + Product(a, b)
    requires after.sxx == before.sxx + Product(a, a) && after.syy == before.syy + Product(b, b)
    ensures Bounded(after)
  {
    var x, y, z := before.sxx, before.syy, before.sxy;
    CrossTerm(x, y, z, a, b);
    Square(a);
    Square(b);
    assert (x + a * a) * (y + b * b) == x * y + x * (b * b) + y * (a * a) + (a * a) * (b * b);
    assert (z + a * b) * (z + a * b) == z * z + 2.0 * (z * (a * b)) + (a * b) * (a * b);
    assert (a * a) * (b * b) == (a * b) * (a * b);
  }

  // The three sums together.
  function SumsAt(xs: seq<real>, mx: real, ys: seq<real>, my: real): Sums
    requires |xs| == |ys|
  {
    Sums(Cross(xs, mx, ys, my), Cross(xs, mx, xs, mx), Cross(ys, my, ys, my))
  }

  lemma CrossGrows(xs: seq<real>, mx: real, ys: seq<real>, my: real, n: nat)
    requires |xs| == |ys| == n + 1
    ensures Cross(xs, mx, ys, my) == Cross(xs[..n], mx, ys[..n], my) + Product(xs[n] - mx, ys[n] - my)
  {
  }

  /** Cauchy-Schwarz for every two columns and every two centres: no coefficient leaves [-1, 1]. */
  lemma {:induction false} CauchySchwarz(xs: seq<real>, mx: real, ys: seq<real>, my: real)
    requires |xs| == |ys|
    ensures Bounded(SumsAt(xs, mx, ys, my))
  {
    if xs != [] {
      var n := |xs| - 1;
      CrossGrows(xs, mx, ys, my, n);
      CrossGrows(xs, mx, xs, mx, n);
      CrossGrows(ys, my, ys, my, n);
      CauchySchwarz(xs[..n], mx, ys[..n], my);
      BoundedStep(SumsAt(xs[..n], mx, ys[..n], my), xs[n] - mx, ys[n] - my, SumsAt(xs, mx, ys, my));
    }
  }

  lemma ZeroSquare(x: real)
    ensures x * x == 0.0 <==> x == 0.0
  {
    if x != 0.0 {
      calc {
        x * x * (1.0 / x);
        x * (x * (1.0 / x));
        { assert x * (1.0 / x) == 1.0; }
        x;
      }
    }
  }

  lemma {:induction false} NoSpread(xs: seq<real>, m: real)
    ensures Cross(xs, m, xs, m) >= 0.0
    ensures Cross(xs, m, xs, m) == 0.0 <==> forall i :: 0 <= i < |xs| ==> xs[i] == m
  {
    if xs != [] {
      var n := |xs| - 1;
      NoSpread(xs[..n], m);
      Square(xs[n] - m);
      ZeroSquare(xs[n] - m);
      assert forall i :: 0 <= i < n ==> xs[..n][i] == xs[i];
      if Cross(xs, m, xs, m) == 0.0 {
        assert xs[n] == m;
      }
    }
  }

  predicate Constant(values: seq<real>) {
    forall i, j :: 0 <= i < |values| && 0 <= j < |values| ==> values[i] == values[j]
  }

  lemma {:induction false} SumOfConstant(xs: seq<real>, c: real)
    requires forall i :: 0 <= i < |xs| ==> xs[i] == c
    ensures Sum(xs) == |xs| as real * c
  {
    if xs != [] {
      SumOfConstant(xs[..|xs| - 1], c);
    }
  }

  lemma MeanOfConstant(xs: seq<real>, c: real)
    requires xs != [] && forall i :: 0 <= i < |xs| ==> xs[i] == c
    ensures Mean(xs) == c
  {
    SumOfConstant(xs, c);
    assert |xs| as real * c / |xs| as real == c;
  }

  lemma ConstantRanks(values: seq<real>)
    ensures Constant(RanksOf(values)) <==> Constant(values)
  {
    var r := RanksOf(values);
    if !Constant(values) {
      var i: nat, j: nat :| i < |values| && j < |values| && values[i] != values[j];
      RanksKeepOrder(values, i, j);
      RanksKeepOrder(values, j, i);
      assert r[i] != r[j];
    }
  }

  /** A column of ranks has no spread exactly when the ranked column is constant. */
  lemma SpreadOfRanks(values: seq<real>)
    requires values != []
    ensures var r := RanksOf(values);
            && Cross(r, Mean(r), r, Mean(r)) >= 0.0
            && (Cross(r, Mean(r), r, Mean(r)) == 0.0 <==> Constant(values))
  {
    var r := RanksOf(values);
    NoSpread(r, Mean(r));
    ConstantRanks(values);
    if Constant(r) {
      MeanOfConstant(r, r[0]);
    }
  }

  function Column(pairs: seq<(real, real)>, first: bool): (r: seq<real>)
    ensures |r| == |pairs| && forall i :: 0 <= i < |pairs| ==> r[i] == if first then pairs[i].0 else pairs[i].1
  {
    seq(|pairs|, i requires 0 <= i < |pairs| => if first then pairs[i].0 else pairs[i].1)
  }

  method CrossLoop(xs: seq<real>, mx: real, ys: seq<real>, my: real) returns (sum: real)
    requires |xs| == |ys|
    ensures sum == Cross(xs, mx, ys, my)
  {
    sum := 0.0;
    for i := 0 to |xs|
      invariant sum == Cross(xs[..i], mx, ys[..i], my)
    {
      assert xs[..i + 1][..i] == xs[..i] && ys[..i + 1][..i] == ys[..i];
      sum := sum + (xs[i] - mx) * (ys[i] - my);
    }
    assert xs[..|xs|] == xs && ys[..|ys|] == ys;
  }

  /** No coefficient below three pairs or for a constant column; otherwise two positive spreads
      that bound the cross sum. */
  method Spearman(pairs: seq<(real, real)>) returns (r: Option<Sums>)
    ensures r.None? <==> |pairs| < 3 || Constant(Column(pairs, true)) || Constant(Column(pairs, false))
    ensures r.Some? ==> r.value == SumsOf(RanksOf(Column(pairs, true)), RanksOf(Column(pairs, false)))
    ensures r.Some? ==> r.value.sxx > 0.0 && r.value.syy > 0.0 && Bounded(r.value)
  {
    if |pairs| < 3 {
      return None;
    }
    var x := TieAveraged(Column(pairs, true));
    var y := TieAveraged(Column(pairs, false));
    assert x == RanksOf(Column(pairs, true)) && y == RanksOf(Column(pairs, false));
    var mx, my := Mean(x), Mean(y);
    var sxy := CrossLoop(x, mx, y, my);
    var sxx := CrossLoop(x, mx, x, mx);
    var syy := CrossLoop(y, my, y, my);
    SpreadOfRanks(Column(pairs, true));
    SpreadOfRanks(Column(pairs, false));
    CauchySchwarz(x, mx, y, my);
    return if sxx != 0.0 && syy != 0.0 then Some(Sums(sxy, sxx, syy)) else None;
  }

  // ---------------------------------------------------------------- what the coefficient sees

  /** Replacing a column by a strictly increasing transform of it changes nothing. */
  lemma SpearmanSeesOrderOnly(xs: seq<real>, ys: seq<real>, other: seq<real>)
    requires |xs| == |ys| > 0 && SameOrder(xs, other)
    ensures SumsOf(RanksOf(xs), RanksOf(ys)) == SumsOf(RanksOf(other), RanksOf(ys))
  {
    RanksSeeOrderOnly(xs, other);
  }

  /** The coefficient is 1 between a column and any strictly increasing transform of it. */
  lemma PerfectAgreement(xs: seq<real>, ys: seq<real>)
    requires xs != [] && SameOrder(xs, ys)
    ensures var s := SumsOf(RanksOf(xs), RanksOf(ys)); s.sxy == s.sxx == s.syy
  {
    RanksSeeOrderOnly(xs, ys);
    var x := RanksOf(xs);
  }

  lemma {:induction false} CrossMirrored(xs: seq<real>, mx: real, ys: seq<real>, my: real)
    requires |xs| == |ys| && forall i :: 0 <= i < |xs| ==> ys[i] - my == mx - xs[i]
    ensures Cross(xs, mx, ys, my) == -Cross(xs, mx, xs, mx)
    ensures Cross(ys, my, ys, my) == Cross(xs, mx, xs, mx)
  {
    if xs != [] {
      var n := |xs| - 1;
      CrossMirrored(xs[..n], mx, ys[..n], my);
      assert ys[n] - my == -(xs[n] - mx);
    }
  }

  lemma {:induction false} SumMirrored(xs: seq<real>, ys: seq<real>, c: real)
    requires |xs| == |ys| && forall i :: 0 <= i < |xs| ==> ys[i] == c - xs[i]
    ensures Sum(ys) == |xs| as real * c - Sum(xs)
  {
    if xs != [] {
      SumMirrored(xs[..|xs| - 1], ys[..|xs| - 1], c);
    }
  }

  lemma MeanMirrored(n: nat, sum: real, c: real)
    requires n > 0
    ensures (n as real * c - sum) / n as real == c - sum / n as real
  {
  }

  lemma MirroredSums(x: seq<real>, y: seq<real>, c: real)
    requires |x| == |y| > 0 && forall i :: 0 <= i < |x| ==> y[i] == c - x[i]
    ensures SumsOf(x, y).sxy == -SumsOf(x, y).sxx && SumsOf(x, y).syy == SumsOf(x, y).sxx
  {
    SumMirrored(x, y, c);
    MeanMirrored(|x|, Sum(x), c);
    CrossMirrored(x, Mean(x), y, Mean(y));
  }

  /** And -1 between a column and any strictly decreasing transform of it. */
  lemma PerfectDisagreement(xs: seq<real>, ys: seq<real>)
    requires xs != [] && Opposite(xs, ys)
    ensures var s := SumsOf(RanksOf(xs), RanksOf(ys)); s.sxy == -s.sxx && s.syy == s.sxx
  {
    RanksMirror(xs, ys);
    MirroredSums(RanksOf(xs), RanksOf(ys), (|xs| + 1) as real);
  }
}
