/** Reliability bins, expected and maximum calibration error, and the Brier score. */
module Calibration {
  import opened Common
  import opened Rounding

  const NUM_BINS := 10

  /** One row of the calibration curve; the optional columns are empty for an empty bin. */
  datatype Bin = Bin(low: real, high: real, count: nat,
                     meanPredicted: Option<real>, fractionPositive: Option<real>, gap: Option<real>)

  datatype Metrics = Metrics(n: nat, brier: real, ece: real, mce: real,
                             meanPredicted: real, meanObserved: real, curve: seq<Bin>)

  datatype MetricsError = InsufficientData(n: nat)

  // ---------------------------------------------------------------- sums

  function Sum(xs: seq<real>): real {
    if xs == [] then 0.0 else Sum(xs[..|xs| - 1]) + xs[|xs| - 1]
  }

  function BinWidth(numBins: nat): real
    requires numBins > 0
  {
    1.0 / numBins as real
  }

  /** Membership test of one bin: half open, except that the last bin is closed on the right. */
  predicate InBin(p: real, b: nat, numBins: nat)
    requires b < numBins
  {
    var lo := b as real * BinWidth(numBins);
    var hi := lo + BinWidth(numBins);
    lo <= p && (p < hi || (b == numBins - 1 && p <= hi))
  }

  /** Sum of xs[i] over the samples i whose probability ps[i] falls into bin b. */
  function BinSum(ps: seq<real>, xs: seq<real>, b: nat, numBins: nat): real
    requires b < numBins && |ps| == |xs|
  {
    if ps == [] then 0.0
    else
      var k := |ps| - 1;
      BinSum(ps[..k], xs[..k], b, numBins) + if InBin(ps[k], b, numBins) then xs[k] else 0.0
  }

  function BinCount(ps: seq<real>, b: nat, numBins: nat): nat
    requires b < numBins
  {
    if ps == [] then 0
    else
      var k := |ps| - 1;
      BinCount(ps[..k], b, numBins) + if InBin(ps[k], b, numBins) then 1 else 0
  }

  function Reals(ys: seq<int>): (rs: seq<real>)
    ensures |rs| == |ys| && forall i | 0 <= i < |ys| :: rs[i] == ys[i] as real
  {
    seq(|ys|, i requires 0 <= i < |ys| => ys[i] as real)
  }

  function Residuals(ps: seq<real>, ys: seq<int>): (ds: seq<real>)
    requires |ps| == |ys|
    ensures |ds| == |ps| && forall i | 0 <= i < |ps| :: ds[i] == ps[i] - ys[i] as real
  {
    seq(|ps|, i requires 0 <= i < |ps| => ps[i] - ys[i] as real)
  }

  function Square(x: real): real {
    x * x
  }

  function Squares(xs: seq<real>): (qs: seq<real>)
    ensures |qs| == |xs| && forall i | 0 <= i < |xs| :: qs[i] == Square(xs[i])
  {
    seq(|xs|, i requires 0 <= i < |xs| => Square(xs[i]))
  }

  // ---------------------------------------------------------------- the exact quantities

  /** Sum over the bins 0 .. upto-1 of the samples' values xs, bin by bin. */
  function SumBins(ps: seq<real>, xs: seq<real>, numBins: nat, upto: nat): real
    requires upto <= numBins && |ps| == |xs|
  {
    if upto == 0 then 0.0 else SumBins(ps, xs, numBins, upto - 1) + BinSum(ps, xs, upto - 1, numBins)
  }

  function CountBins(ps: seq<real>, numBins: nat, upto: nat): nat
    requires upto <= numBins
  {
    if upto == 0 then 0 else CountBins(ps, numBins, upto - 1) + BinCount(ps, upto - 1, numBins)
  }

  /** The unrounded gap of a bin: mean predicted minus observed frequency (0 when it is empty). */
  function Gap(ps: seq<real>, ys: seq<int>, b: nat, numBins: nat): real
    requires b < numBins && |ps| == |ys|
  {
    MeanDifference(BinSum(ps, ps, b, numBins), BinSum(ps, Reals(ys), b, numBins), BinCount(ps, b, numBins))
  }

  function MeanDifference(a: real, b: real, n: nat): real {
    if n == 0 then 0.0 else a / n as real - b / n as real
  }

  function Weighted(n: nat, g: real): real {
    n as real * Abs(g)
  }

  /** Count-weighted sum of |g(b)| over the bins 0 .. upto-1. */
  function WeightedGaps(ps: seq<real>, gaps: seq<real>, numBins: nat, upto: nat): real
    requires upto <= numBins == |gaps|
  {
    if upto == 0 then 0.0
    else WeightedGaps(ps, gaps, numBins, upto - 1)
         + Weighted(BinCount(ps, upto - 1, numBins), gaps[upto - 1])
  }

  /** Largest |g(b)| over the nonempty bins 0 .. upto-1, at least 0. */
  function LargestGap(ps: seq<real>, gaps: seq<real>, numBins: nat, upto: nat): real
    requires upto <= numBins == |gaps|
  {
    if upto == 0 then 0.0
    else
      var rest := LargestGap(ps, gaps, numBins, upto - 1);
      if BinCount(ps, upto - 1, numBins) == 0 then rest else Max(rest, Abs(gaps[upto - 1]))
  }

  function Gaps(ps: seq<real>, ys: seq<int>, numBins: nat): (gs: seq<real>)
    requires |ps| == |ys|
    ensures |gs| == numBins && forall b: nat | b < numBins :: gs[b] == Gap(ps, ys, b, numBins)
  {
    seq(numBins, b requires 0 <= b < numBins => Gap(ps, ys, b, numBins))
  }

  function RoundedGaps(ps: seq<real>, ys: seq<int>, numBins: nat): (gs: seq<real>)
    requires |ps| == |ys|
    ensures |gs| == numBins
    ensures forall b: nat | b < numBins :: gs[b] == Round(Gap(ps, ys, b, numBins), SCALE_4)
  {
    seq(numBins, b requires 0 <= b < numBins => Round(Gap(ps, ys, b, numBins), SCALE_4))
  }

  function Ece(ps: seq<real>, ys: seq<int>, numBins: nat): real
    requires |ps| == |ys| > 0
  {
    WeightedGaps(ps, Gaps(ps, ys, numBins), numBins, numBins) / |ps| as real
  }

  function Mce(ps: seq<real>, ys: seq<int>, numBins: nat): real
    requires |ps| == |ys|
  {
    LargestGap(ps, Gaps(ps, ys, numBins), numBins, numBins)
  }

  function Brier(ps: seq<real>, ys: seq<int>): real
    requires |ps| == |ys| > 0
  {
    Sum(Squares(Residuals(ps, ys))) / |ps| as real
  }

  /** What the code publishes: gaps rounded per bin, then the aggregate rounded again. */
  function ReportedEce(ps: seq<real>, ys: seq<int>, numBins: nat): real
    requires |ps| == |ys| > 0
  {
    Round(Average(WeightedGaps(ps, RoundedGaps(ps, ys, numBins), numBins, numBins), |ps|), SCALE_4)
  }

  function ReportedMce(ps: seq<real>, ys: seq<int>, numBins: nat): real
    requires |ps| == |ys|
  {
    Round(LargestGap(ps, RoundedGaps(ps, ys, numBins), numBins, numBins), SCALE_4)
  }

  ghost predicate UnitInterval(ps: seq<real>) {
    forall i | 0 <= i < |ps| :: 0.0 <= ps[i] <= 1.0
  }

  ghost predicate Binary(ys: seq<int>) {
    forall i | 0 <= i < |ys| :: ys[i] == 0 || ys[i] == 1
  }

  // ---------------------------------------------------------------- the bins partition the samples

  /** The one bin a probability in [0, 1] belongs to. */
  function BinIndex(p: real, numBins: nat): (b: int)
    requires numBins > 0 && 0.0 <= p <= 1.0
    ensures 0 <= b < numBins
  {
    var k := (p * numBins as real).Floor;
    assert 0.0 <= p * numBins as real <= numBins as real;
    if k == numBins then numBins - 1 else k
  }

  /** A probability lies in exactly one bin when it is in [0, 1], and in none otherwise. */
  lemma InBinIffIndex(p: real, b: nat, numBins: nat)
    requires b < numBins
    ensures InBin(p, b, numBins) <==> 0.0 <= p <= 1.0 && b == BinIndex(p, numBins)
  {
    var q := p * numBins as real;
    InBinScaled(p, b, numBins, q);
    InScaledBinIffFloor(q, b, numBins);
    UnitScaled(p, numBins as real);
  }

  /** Bin membership of q = p * numBins, where bin b is [b, b + 1). */
  predicate InScaledBin(q: real, b: nat, numBins: nat) {
    b as real <= q && (q < b as real + 1.0 || (b == numBins - 1 && q <= b as real + 1.0))
  }

  lemma InBinScaled(p: real, b: nat, numBins: nat, q: real)
    requires b < numBins && q == p * numBins as real
    ensures InBin(p, b, numBins) <==> InScaledBin(q, b, numBins)
  {
    var n, w := numBins as real, BinWidth(numBins);
    BinEdges(b as real, w, n);
    ScaleOrder(b as real * w, p, n);
    ScaleOrder(p, b as real * w + w, n);
  }

  lemma BinEdges(b: real, w: real, n: real)
    requires n > 0.0 && w == 1.0 / n
    ensures (b * w) * n == b && (b * w + w) * n == b + 1.0
  {
    assert w * n == 1.0;
    assert (b * w) * n == b * (w * n);
    assert (b * w + w) * n == (b * w) * n + w * n;
  }

  lemma InScaledBinIffFloor(q: real, b: nat, numBins: nat)
    requires b < numBins
    ensures InScaledBin(q, b, numBins)
      <==> 0.0 <= q <= numBins as real && b == (if q.Floor == numBins then numBins - 1 else q.Floor)
  {
  }

  lemma UnitScaled(p: real, n: real)
    requires n > 0.0
    ensures 0.0 <= p <= 1.0 <==> 0.0 <= p * n <= n
  {
    ScaleOrder(0.0, p, n);
    ScaleOrder(p, 1.0, n);
  }

  lemma ScaleOrder(x: real, y: real, n: real)
    requires n > 0.0
    ensures x <= y <==> x * n <= y * n
    ensures x < y <==> x * n < y * n
  {
    assert (y - x) * n == y * n - x * n;
  }

  /** Adding one sample adds its value to the bins up to `upto` exactly when its own bin is among them. */
  lemma {:induction false} AddSample(ps: seq<real>, xs: seq<real>, numBins: nat, upto: nat)
    requires 0 < |ps| == |xs| && upto <= numBins
    ensures var k := |ps| - 1;
            SumBins(ps, xs, numBins, upto) == SumBins(ps[..k], xs[..k], numBins, upto)
              + if 0.0 <= ps[k] <= 1.0 && numBins > 0 && BinIndex(ps[k], numBins) < upto then xs[k] else 0.0
  {
    if upto > 0 {
      AddSample(ps, xs, numBins, upto - 1);
      InBinIffIndex(ps[|ps| - 1], upto - 1, numBins);
    }
  }

  /** Summing bin by bin is summing once: the bins partition any probabilities in [0, 1]. */
  lemma {:induction false} BinsPartitionSum(ps: seq<real>, xs: seq<real>, numBins: nat)
    requires numBins > 0 && |ps| == |xs| && UnitInterval(ps)
    ensures SumBins(ps, xs, numBins, numBins) == Sum(xs)
  {
    if ps == [] {
      EmptySums(numBins, numBins);
    } else {
      var k := |ps| - 1;
      AddSample(ps, xs, numBins, numBins);
      BinsPartitionSum(ps[..k], xs[..k], numBins);
    }
  }

  lemma {:induction false} EmptySums(numBins: nat, upto: nat)
    requires upto <= numBins
    ensures SumBins([], [], numBins, upto) == 0.0
    ensures CountBins([], numBins, upto) == 0
  {
    if upto > 0 { EmptySums(numBins, upto - 1); }
  }

  function CountInUnit(ps: seq<real>): (n: nat)
    ensures n <= |ps|
    ensures n == |ps| <==> UnitInterval(ps)
  {
    if ps == [] then 0
    else
      var k := |ps| - 1;
      CountInUnit(ps[..k]) + if 0.0 <= ps[k] <= 1.0 then 1 else 0
  }

  lemma {:induction false} AddSampleCount(ps: seq<real>, numBins: nat, upto: nat)
    requires 0 < |ps| && upto <= numBins
    ensures var k := |ps| - 1;
            CountBins(ps, numBins, upto) == CountBins(ps[..k], numBins, upto)
              + if 0.0 <= ps[k] <= 1.0 && numBins > 0 && BinIndex(ps[k], numBins) < upto then 1 else 0
  {
    if upto > 0 {
      AddSampleCount(ps, numBins, upto - 1);
      InBinIffIndex(ps[|ps| - 1], upto - 1, numBins);
    }
  }

  /** The bin counts add up to the number of probabilities in [0, 1]: all n of them exactly when none is outside. */
  lemma {:induction false} BinCountsTotal(ps: seq<real>, numBins: nat)
    requires numBins > 0
    ensures CountBins(ps, numBins, numBins) == CountInUnit(ps)
    ensures CountBins(ps, numBins, numBins) == |ps| <==> UnitInterval(ps)
  {
    if ps == [] {
      EmptySums(numBins, numBins);
    } else {
      AddSampleCount(ps, numBins, numBins);
      BinCountsTotal(ps[..|ps| - 1], numBins);
    }
  }

  // ---------------------------------------------------------------- one bin

  lemma {:induction false} BinSumDifference(ps: seq<real>, ys: seq<int>, b: nat, numBins: nat)
    requires b < numBins && |ps| == |ys|
    ensures BinSum(ps, ps, b, numBins) - BinSum(ps, Reals(ys), b, numBins)
         == BinSum(ps, Residuals(ps, ys), b, numBins)
  {
    if ps != [] {
      var k := |ps| - 1;
      assert Reals(ys)[..k] == Reals(ys[..k]);
      assert Residuals(ps, ys)[..k] == Residuals(ps[..k], ys[..k]);
      BinSumDifference(ps[..k], ys[..k], b, numBins);
    }
  }

  lemma {:induction false} EmptyBinSum(ps: seq<real>, xs: seq<real>, b: nat, numBins: nat)
    requires b < numBins && |ps| == |xs| && BinCount(ps, b, numBins) == 0
    ensures BinSum(ps, xs, b, numBins) == 0.0
  {
    if ps != [] { EmptyBinSum(ps[..|ps| - 1], xs[..|ps| - 1], b, numBins); }
  }

  /** The count-weighted absolute gap of a bin is the absolute sum of its residuals. */
  lemma WeightedGapIsResidualSum(ps: seq<real>, ys: seq<int>, b: nat, numBins: nat)
    requires b < numBins && |ps| == |ys|
    ensures Weighted(BinCount(ps, b, numBins), Gap(ps, ys, b, numBins))
         == Abs(BinSum(ps, Residuals(ps, ys), b, numBins))
  {
    BinSumDifference(ps, ys, b, numBins);
    if BinCount(ps, b, numBins) == 0 {
      EmptyBinSum(ps, Residuals(ps, ys), b, numBins);
    } else {
      WeightedMeanDifference(BinSum(ps, ps, b, numBins), BinSum(ps, Reals(ys), b, numBins), BinCount(ps, b, numBins));
    }
  }

  lemma WeightedMeanDifference(a: real, b: real, n: nat)
    requires n > 0
    ensures Weighted(n, MeanDifference(a, b, n)) == Abs(a - b)
  {
    var k := n as real;
    var g := a / k - b / k;
    assert (a / k) * k == a && (b / k) * k == b;
    assert g * k == a - b;
    if g >= 0.0 { assert g * k >= 0.0; } else { assert -g * k >= 0.0; }
  }

  lemma {:induction false} ResidualSumBounded(ps: seq<real>, ys: seq<int>, b: nat, numBins: nat)
    requires b < numBins && |ps| == |ys| && UnitInterval(ps) && Binary(ys)
    ensures Abs(BinSum(ps, Residuals(ps, ys), b, numBins)) <= BinCount(ps, b, numBins) as real
  {
    if ps != [] {
      var k := |ps| - 1;
      assert Residuals(ps, ys)[..k] == Residuals(ps[..k], ys[..k]);
      ResidualSumBounded(ps[..k], ys[..k], b, numBins);
      assert ys[k] == 0 || ys[k] == 1;
    }
  }

  /** The line below n squares whose values sum to s, touching at c. */
  function Tangent(c: real, s: real, n: nat): real {
    2.0 * c * s - c * c * n as real
  }

  /** The squared residuals of one bin lie above every tangent line. */
  lemma {:induction false} SquaresAboveTangent(ps: seq<real>, ds: seq<real>, b: nat, numBins: nat, c: real)
    requires b < numBins && |ps| == |ds|
    ensures BinSum(ps, Squares(ds), b, numBins) >= Tangent(c, BinSum(ps, ds, b, numBins), BinCount(ps, b, numBins))
  {
    if ps != [] {
      var k := |ps| - 1;
      assert Squares(ds)[..k] == Squares(ds[..k]);
      SquaresAboveTangent(ps[..k], ds[..k], b, numBins, c);
      TangentStep(c, BinSum(ps[..k], ds[..k], b, numBins), BinCount(ps[..k], b, numBins), ds[k]);
    }
  }

  lemma TangentStep(c: real, s: real, n: nat, d: real)
    ensures Tangent(c, s + d, n + 1) <= Tangent(c, s, n) + Square(d)
  {
    assert (d - c) * (d - c) >= 0.0;
    assert (d - c) * (d - c) == d * d - 2.0 * c * d + c * c;
    assert 2.0 * c * (s + d) == 2.0 * c * s + 2.0 * c * d;
    assert c * c * (n as real + 1.0) == c * c * n as real + c * c;
  }

  // ---------------------------------------------------------------- all bins

  /** |sum of residuals| <= sum of weighted gaps, over any number of leading bins. */
  lemma {:induction false} TriangleOverBins(ps: seq<real>, ys: seq<int>, numBins: nat, upto: nat)
    requires upto <= numBins && |ps| == |ys|
    ensures Abs(SumBins(ps, Residuals(ps, ys), numBins, upto))
         <= WeightedGaps(ps, Gaps(ps, ys, numBins), numBins, upto)
  {
    if upto > 0 {
      TriangleOverBins(ps, ys, numBins, upto - 1);
      WeightedGapIsResidualSum(ps, ys, upto - 1, numBins);
    }
  }

  lemma {:induction false} LargestGapBounds(ps: seq<real>, gaps: seq<real>, numBins: nat, upto: nat, b: nat)
    requires b < upto <= numBins == |gaps|
    requires BinCount(ps, b, numBins) > 0
    ensures Abs(gaps[b]) <= LargestGap(ps, gaps, numBins, upto)
  {
    if b < upto - 1 { LargestGapBounds(ps, gaps, numBins, upto - 1, b); }
  }

  function Times(m: real, n: nat): real {
    m * n as real
  }

  /** A weighted sum of gaps is at most the largest gap times the total weight. */
  lemma {:induction false} WeightedGapsBelowLargest(ps: seq<real>, gaps: seq<real>, numBins: nat, upto: nat, m: real)
    requires upto <= numBins == |gaps|
    requires forall b: nat | b < upto && BinCount(ps, b, numBins) > 0 :: Abs(gaps[b]) <= m
    ensures WeightedGaps(ps, gaps, numBins, upto) <= Times(m, CountBins(ps, numBins, upto))
  {
    if upto > 0 {
      WeightedGapsBelowLargest(ps, gaps, numBins, upto - 1, m);
      AddWeight(BinCount(ps, upto - 1, numBins), gaps[upto - 1], m, CountBins(ps, numBins, upto - 1));
    }
  }

  lemma AddWeight(n: nat, g: real, m: real, before: nat)
    requires n > 0 ==> Abs(g) <= m
    ensures Weighted(n, g) + Times(m, before) <= Times(m, before + n)
  {
    if n > 0 { MulMonotone(Abs(g), m, n as real); }
    assert m * (before as real + n as real) == m * before as real + m * n as real;
  }

  lemma {:induction false} LargestGapAtMost(ps: seq<real>, gaps: seq<real>, numBins: nat, upto: nat, m: real)
    requires upto <= numBins == |gaps| && m >= 0.0
    requires forall b: nat | b < upto && BinCount(ps, b, numBins) > 0 :: Abs(gaps[b]) <= m
    ensures LargestGap(ps, gaps, numBins, upto) <= m
  {
    if upto > 0 { LargestGapAtMost(ps, gaps, numBins, upto - 1, m); }
  }

  lemma {:induction false} SquaresAboveGaps(ps: seq<real>, ys: seq<int>, numBins: nat, upto: nat, e: real)
    requires upto <= numBins && |ps| == |ys|
    ensures SumBins(ps, Squares(Residuals(ps, ys)), numBins, upto)
         >= Tangent(e, WeightedGaps(ps, Gaps(ps, ys, numBins), numBins, upto), CountBins(ps, numBins, upto))
  {
    if upto > 0 {
      var b := upto - 1;
      SquaresAboveGaps(ps, ys, numBins, b, e);
      WeightedGapIsResidualSum(ps, ys, b, numBins);
      var ds := Residuals(ps, ys);
      var s := BinSum(ps, ds, b, numBins);
      SquaresAboveTangent(ps, ds, b, numBins, if s >= 0.0 then e else -e);
      TangentAdd(e, s, BinCount(ps, b, numBins), WeightedGaps(ps, Gaps(ps, ys, numBins), numBins, b),
                 CountBins(ps, numBins, b));
    }
  }

  lemma TangentAdd(e: real, s: real, n: nat, w: real, c: nat)
    ensures Tangent(if s >= 0.0 then e else -e, s, n) + Tangent(e, w, c) == Tangent(e, w + Abs(s), c + n)
  {
    assert 2.0 * e * (w + Abs(s)) == 2.0 * e * w + 2.0 * e * Abs(s);
    assert e * e * (c as real + n as real) == e * e * c as real + e * e * n as real;
    assert (-e) * (-e) == e * e;
  }

  // ---------------------------------------------------------------- main results

  function Mean(xs: seq<real>): real
    requires |xs| > 0
  {
    Sum(xs) / |xs| as real
  }

  lemma {:induction false} SumOfResiduals(ps: seq<real>, ys: seq<int>)
    requires |ps| == |ys|
    ensures Sum(Residuals(ps, ys)) == Sum(ps) - Sum(Reals(ys))
  {
    if ps != [] {
      var k := |ps| - 1;
      assert Reals(ys)[..k] == Reals(ys[..k]);
      assert Residuals(ps, ys)[..k] == Residuals(ps[..k], ys[..k]);
      SumOfResiduals(ps[..k], ys[..k]);
    }
  }

  /** |mean predicted - mean observed| <= ECE. */
  lemma BiasBelowEce(ps: seq<real>, ys: seq<int>, numBins: nat)
    requires numBins > 0 && |ps| == |ys| > 0 && UnitInterval(ps)
    ensures Abs(Mean(ps) - Mean(Reals(ys))) <= Ece(ps, ys, numBins)
  {
    var n := |ps| as real;
    var ds := Residuals(ps, ys);
    TriangleOverBins(ps, ys, numBins, numBins);
    BinsPartitionSum(ps, ds, numBins);
    SumOfResiduals(ps, ys);
    var w := WeightedGaps(ps, Gaps(ps, ys, numBins), numBins, numBins);
    DivMonotone(Sum(ds), w, n);
    DivMonotone(-w, Sum(ds), n);
    QuotientBias(Sum(ps), Sum(Reals(ys)), w, n);
  }

  lemma QuotientBias(a: real, b: real, w: real, n: real)
    requires n > 0.0
    ensures a / n - b / n == (a - b) / n && (-w) / n == -(w / n)
  {
  }

  /** ECE <= MCE <= 1. */
  lemma EceBelowMce(ps: seq<real>, ys: seq<int>, numBins: nat)
    requires numBins > 0 && |ps| == |ys| > 0 && UnitInterval(ps) && Binary(ys)
    ensures 0.0 <= Ece(ps, ys, numBins) <= Mce(ps, ys, numBins) <= 1.0
  {
    var gaps := Gaps(ps, ys, numBins);
    forall b: nat | b < numBins && BinCount(ps, b, numBins) > 0
      ensures Abs(gaps[b]) <= Mce(ps, ys, numBins)
      ensures Abs(gaps[b]) <= 1.0
    {
      LargestGapBounds(ps, gaps, numBins, numBins, b);
      GapAtMostOne(ps, ys, b, numBins);
    }
    WeightedAverageBelow(ps, gaps, numBins, Mce(ps, ys, numBins));
    LargestGapAtMost(ps, gaps, numBins, numBins, 1.0);
    WeightedGapsNonnegative(ps, gaps, numBins, numBins);
    DivMonotone(0.0, WeightedGaps(ps, gaps, numBins, numBins), |ps| as real);
  }

  lemma GapAtMostOne(ps: seq<real>, ys: seq<int>, b: nat, numBins: nat)
    requires b < numBins && |ps| == |ys| && UnitInterval(ps) && Binary(ys)
    requires BinCount(ps, b, numBins) > 0
    ensures Abs(Gap(ps, ys, b, numBins)) <= 1.0
  {
    WeightedGapIsResidualSum(ps, ys, b, numBins);
    ResidualSumBounded(ps, ys, b, numBins);
    AtMostOne(Abs(Gap(ps, ys, b, numBins)), BinCount(ps, b, numBins) as real);
  }

  lemma AtMostOne(g: real, n: real)
    requires n > 0.0 && n * g <= n
    ensures g <= 1.0
  {
  }

  lemma {:induction false} WeightedGapsNonnegative(ps: seq<real>, gaps: seq<real>, numBins: nat, upto: nat)
    requires upto <= numBins == |gaps|
    ensures WeightedGaps(ps, gaps, numBins, upto) >= 0.0
  {
    if upto > 0 { WeightedGapsNonnegative(ps, gaps, numBins, upto - 1); }
  }

  /** The average gap over all samples is at most any bound on the nonempty bins' gaps. */
  lemma WeightedAverageBelow(ps: seq<real>, gaps: seq<real>, numBins: nat, m: real)
    requires numBins == |gaps| && numBins > 0 && |ps| > 0 && UnitInterval(ps)
    requires forall b: nat | b < numBins && BinCount(ps, b, numBins) > 0 :: Abs(gaps[b]) <= m
    ensures WeightedGaps(ps, gaps, numBins, numBins) / |ps| as real <= m
  {
    WeightedGapsBelowLargest(ps, gaps, numBins, numBins, m);
    BinCountsTotal(ps, numBins);
    QuotientBelow(WeightedGaps(ps, gaps, numBins, numBins), m, |ps|);
  }

  lemma QuotientBelow(w: real, m: real, n: nat)
    requires n > 0 && w <= Times(m, n)
    ensures w / n as real <= m
  {
    var k := n as real;
    DivMonotone(w, m * k, k);
    assert m * k / k == m;
  }

  /** ECE squared is at most the Brier score. */
  lemma EceSquaredBelowBrier(ps: seq<real>, ys: seq<int>, numBins: nat)
    requires numBins > 0 && |ps| == |ys| > 0 && UnitInterval(ps)
    ensures Square(Ece(ps, ys, numBins)) <= Brier(ps, ys)
  {
    var e := Ece(ps, ys, numBins);
    SquaresAboveGaps(ps, ys, numBins, numBins, e);
    BinCountsTotal(ps, numBins);
    BinsPartitionSum(ps, Squares(Residuals(ps, ys)), numBins);
    TangentAtMean(e, WeightedGaps(ps, Gaps(ps, ys, numBins), numBins, numBins), |ps|, Sum(Squares(Residuals(ps, ys))));
  }

  lemma TangentAtMean(e: real, w: real, n: nat, q: real)
    requires n > 0 && e == w / n as real && q >= Tangent(e, w, n)
    ensures Square(e) <= q / n as real
  {
    var k := n as real;
    assert w == e * k;
    assert 2.0 * e * w == 2.0 * (e * e * k);
    DivMonotone(e * e * k, q, k);
    assert e * e * k / k == e * e;
  }

  /** Rounding every gap moves their count-weighted average by at most half a grid step. */
  lemma {:induction false} WeightedGapsClose(ps: seq<real>, gs: seq<real>, hs: seq<real>, numBins: nat, upto: nat,
                                             d: real)
    requires upto <= numBins == |gs| == |hs|
    requires forall b: nat | b < upto :: Abs(gs[b] - hs[b]) <= d
    ensures Abs(WeightedGaps(ps, gs, numBins, upto) - WeightedGaps(ps, hs, numBins, upto))
         <= Times(d, CountBins(ps, numBins, upto))
  {
    if upto > 0 {
      var b := upto - 1;
      WeightedGapsClose(ps, gs, hs, numBins, b, d);
      WeightedClose(BinCount(ps, b, numBins), gs[b], hs[b], d, CountBins(ps, numBins, b));
    }
  }

  lemma WeightedClose(n: nat, g: real, h: real, d: real, before: nat)
    requires Abs(g - h) <= d
    ensures Abs(Weighted(n, g) - Weighted(n, h)) + Times(d, before) <= Times(d, before + n)
  {
    ScaledGap(n as real, Abs(g), Abs(h), d);
    TimesAdds(d, before, n);
  }

  lemma ScaledGap(k: real, a: real, c: real, d: real)
    requires k >= 0.0 && Abs(a - c) <= d
    ensures Abs(k * a - k * c) <= d * k
  {
    assert k * a - k * c == (a - c) * k;
    if k > 0.0 {
      MulMonotone(a - c, d, k);
      MulMonotone(-d, a - c, k);
    }
  }

  lemma TimesAdds(d: real, m: nat, n: nat)
    ensures Times(d, m + n) == Times(d, m) + Times(d, n)
  {
    assert (m + n) as real == m as real + n as real;
  }

  lemma {:induction false} LargestGapClose(ps: seq<real>, gs: seq<real>, hs: seq<real>, numBins: nat, upto: nat,
                                           d: real)
    requires upto <= numBins == |gs| == |hs| && d >= 0.0
    requires forall b: nat | b < upto :: Abs(gs[b] - hs[b]) <= d
    ensures Abs(LargestGap(ps, gs, numBins, upto) - LargestGap(ps, hs, numBins, upto)) <= d
  {
    if upto > 0 { LargestGapClose(ps, gs, hs, numBins, upto - 1, d); }
  }

  /**
   * As published, with four-decimal rounding at both levels: ECE <= MCE exactly, each within 1e-4 of its exact value.
   */
  lemma ReportedErrors(ps: seq<real>, ys: seq<int>, numBins: nat)
    requires numBins > 0 && |ps| == |ys| > 0 && UnitInterval(ps)
    ensures ReportedEce(ps, ys, numBins) <= ReportedMce(ps, ys, numBins)
    ensures Abs(ReportedEce(ps, ys, numBins) - Ece(ps, ys, numBins)) <= 0.0001
    ensures Abs(ReportedMce(ps, ys, numBins) - Mce(ps, ys, numBins)) <= 0.0001
  {
    var gs := RoundedGaps(ps, ys, numBins);
    var m := LargestGap(ps, gs, numBins, numBins);
    forall b: nat | b < numBins && BinCount(ps, b, numBins) > 0 ensures Abs(gs[b]) <= m {
      LargestGapBounds(ps, gs, numBins, numBins, b);
    }
    WeightedAverageBelow(ps, gs, numBins, m);
    RoundMonotone(Average(WeightedGaps(ps, gs, numBins, numBins), |ps|), m, SCALE_4);
    ReportedEceClose(ps, ys, numBins);
    ReportedMceClose(ps, ys, numBins);
  }

  lemma GapsRounded(ps: seq<real>, ys: seq<int>, numBins: nat)
    requires |ps| == |ys|
    ensures forall b: nat | b < numBins :: Abs(RoundedGaps(ps, ys, numBins)[b] - Gaps(ps, ys, numBins)[b]) <= 0.00005
  {
    forall b: nat | b < numBins ensures Abs(RoundedGaps(ps, ys, numBins)[b] - Gaps(ps, ys, numBins)[b]) <= 0.00005 {
      RoundError(Gap(ps, ys, b, numBins), SCALE_4);
    }
  }

  lemma ReportedEceClose(ps: seq<real>, ys: seq<int>, numBins: nat)
    requires numBins > 0 && |ps| == |ys| > 0 && UnitInterval(ps)
    ensures Abs(ReportedEce(ps, ys, numBins) - Ece(ps, ys, numBins)) <= 0.0001
  {
    var gs, hs, d := RoundedGaps(ps, ys, numBins), Gaps(ps, ys, numBins), 0.00005;
    GapsRounded(ps, ys, numBins);
    WeightedGapsClose(ps, gs, hs, numBins, numBins, d);
    BinCountsTotal(ps, numBins);
    QuotientClose(WeightedGaps(ps, gs, numBins, numBins), WeightedGaps(ps, hs, numBins, numBins), d, |ps|);
    RoundError(Average(WeightedGaps(ps, gs, numBins, numBins), |ps|), SCALE_4);
  }

  lemma ReportedMceClose(ps: seq<real>, ys: seq<int>, numBins: nat)
    requires |ps| == |ys|
    ensures Abs(ReportedMce(ps, ys, numBins) - Mce(ps, ys, numBins)) <= 0.0001
  {
    var gs, hs := RoundedGaps(ps, ys, numBins), Gaps(ps, ys, numBins);
    GapsRounded(ps, ys, numBins);
    LargestGapClose(ps, gs, hs, numBins, numBins, 0.00005);
    RoundError(LargestGap(ps, gs, numBins, numBins), SCALE_4);
  }

  lemma QuotientClose(a: real, b: real, d: real, n: nat)
    requires n > 0 && Abs(a - b) <= Times(d, n)
    ensures Abs(a / n as real - b / n as real) <= d
  {
    var k := n as real;
    DivMonotone(a, b + d * k, k);
    DivMonotone(b, a + d * k, k);
    QuotientShift(a, d, k);
    QuotientShift(b, d, k);
  }

  lemma QuotientShift(a: real, d: real, k: real)
    requires k > 0.0
    ensures (a + d * k) / k == a / k + d
  {
    QuotientSum(a, d * k, k);
    ProductQuotient(d, k);
  }

  lemma QuotientSum(a: real, b: real, k: real)
    requires k > 0.0
    ensures (a + b) / k == a / k + b / k
  {
  }

  lemma ProductQuotient(d: real, k: real)
    requires k > 0.0
    ensures d * k / k == d
  {
  }

  // ---------------------------------------------------------------- the loops

  /** The row of bin b as the code computes it, columns rounded to 2 and 4 decimals. */
  function BinRow(ps: seq<real>, ys: seq<int>, b: nat, numBins: nat): Bin
    requires b < numBins && |ps| == |ys|
  {
    var lo := b as real * BinWidth(numBins);
    var n := BinCount(ps, b, numBins);
    if n == 0 then
      Bin(Round(lo, 100), Round(lo + BinWidth(numBins), 100), 0, None, None, None)
    else
      Bin(Round(lo, 100), Round(lo + BinWidth(numBins), 100), n,
          Some(Round(BinSum(ps, ps, b, numBins) / n as real, SCALE_4)),
          Some(Round(BinSum(ps, Reals(ys), b, numBins) / n as real, SCALE_4)),
          Some(Round(Gap(ps, ys, b, numBins), SCALE_4)))
  }

  method BinTotals(ps: seq<real>, ys: seq<int>, b: nat, numBins: nat)
    returns (count: nat, sumPredicted: real, sumPositive: real)
    requires b < numBins && |ps| == |ys|
    ensures count == BinCount(ps, b, numBins)
    ensures sumPredicted == BinSum(ps, ps, b, numBins)
    ensures sumPositive == BinSum(ps, Reals(ys), b, numBins)
  {
    count, sumPredicted, sumPositive := 0, 0.0, 0.0;
    ghost var rs := Reals(ys);
    for i := 0 to |ps|
      invariant count == BinCount(ps[..i], b, numBins)
      invariant sumPredicted == BinSum(ps[..i], ps[..i], b, numBins)
      invariant sumPositive == BinSum(ps[..i], rs[..i], b, numBins)
    {
      assert ps[..i + 1][..i] == ps[..i] && rs[..i + 1][..i] == rs[..i];
      if InBin(ps[i], b, numBins) {
        count := count + 1;
        sumPredicted := sumPredicted + ps[i];
        sumPositive := sumPositive + ys[i] as real;
      }
    }
    assert ps[..|ps|] == ps && rs[..|ps|] == rs;
  }

  method CalibrationRow(ps: seq<real>, ys: seq<int>, b: nat, numBins: nat) returns (row: Bin)
    requires b < numBins && |ps| == |ys|
    ensures row == BinRow(ps, ys, b, numBins)
  {
    var lo := b as real * BinWidth(numBins);
    var hi := lo + BinWidth(numBins);
    var count, sumPredicted, sumPositive := BinTotals(ps, ys, b, numBins);
    if count == 0 {
      return Bin(Round(lo, 100), Round(hi, 100), 0, None, None, None);
    }
    var meanPredicted := sumPredicted / count as real;
    var fractionPositive := sumPositive / count as real;
    var gap := meanPredicted - fractionPositive;
    row := Bin(Round(lo, 100), Round(hi, 100), count,
               Some(Round(meanPredicted, SCALE_4)), Some(Round(fractionPositive, SCALE_4)), Some(Round(gap, SCALE_4)));
  }

  /** One row per bin, in order. */
  method CalibrationBins(ps: seq<real>, ys: seq<int>, numBins: nat) returns (bins: seq<Bin>)
    requires numBins > 0 && |ps| == |ys|
    ensures IsCurve(bins, ps, ys, numBins)
  {
    bins := [];
    for b := 0 to numBins
      invariant |bins| == b
      invariant forall c: nat | c < b :: bins[c] == BinRow(ps, ys, c, numBins)
    {
      var row := CalibrationRow(ps, ys, b, numBins);
      bins := bins + [row];
    }
  }

  ghost predicate IsCurve(bins: seq<Bin>, ps: seq<real>, ys: seq<int>, numBins: nat)
    requires |ps| == |ys|
  {
    |bins| == numBins && forall b: nat | b < numBins :: bins[b] == BinRow(ps, ys, b, numBins)
  }

  function Average(w: real, n: nat): real
    requires n > 0
  {
    w / n as real
  }

  predicate Filled(b: Bin) {
    b.count > 0 && b.gap.Some?
  }

  /** The aggregates of a curve given by its rows alone. */
  function RowsWeighted(bins: seq<Bin>): real {
    if bins == [] then 0.0
    else
      var b := bins[|bins| - 1];
      RowsWeighted(bins[..|bins| - 1]) + if Filled(b) then Weighted(b.count, b.gap.value) else 0.0
  }

  function RowsLargest(bins: seq<Bin>): real {
    if bins == [] then 0.0
    else
      var b := bins[|bins| - 1];
      var rest := RowsLargest(bins[..|bins| - 1]);
      if Filled(b) then Max(rest, Abs(b.gap.value)) else rest
  }

  /** Count-weighted mean and largest absolute gap of the rows that have one. */
  method EceMce(bins: seq<Bin>, n: nat) returns (ece: real, mce: real)
    requires n > 0
    ensures ece == Round(Average(RowsWeighted(bins), n), SCALE_4)
    ensures mce == Round(RowsLargest(bins), SCALE_4)
  {
    ece, mce := 0.0, 0.0;
    for i := 0 to |bins|
      invariant ece == Average(RowsWeighted(bins[..i]), n)
      invariant mce == RowsLargest(bins[..i])
    {
      var b := bins[i];
      assert bins[..i + 1][..i] == bins[..i];
      if b.count == 0 || b.gap.None? {
        continue;
      }
      var weight := b.count as real / n as real;
      var absGap := Abs(b.gap.value);
      AddToAverage(b.count, b.gap.value, RowsWeighted(bins[..i]), n);
      ece := ece + weight * absGap;
      if absGap > mce {
        mce := absGap;
      }
    }
    assert bins[..|bins|] == bins;
    ece, mce := Round(ece, SCALE_4), Round(mce, SCALE_4);
  }

  lemma AddToAverage(c: nat, g: real, w: real, n: nat)
    requires n > 0
    ensures Average(w, n) + c as real / n as real * Abs(g) == Average(w + Weighted(c, g), n)
  {
    var k := n as real;
    assert c as real / k * Abs(g) == c as real * Abs(g) / k;
  }

  /** Aggregating the rows of a computed curve gives the published ECE and MCE of the samples. */
  lemma {:induction false} CurveAggregates(bins: seq<Bin>, ps: seq<real>, ys: seq<int>, numBins: nat, upto: nat)
    requires |ps| == |ys| && IsCurve(bins, ps, ys, numBins) && upto <= numBins
    ensures RowsWeighted(bins[..upto]) == WeightedGaps(ps, RoundedGaps(ps, ys, numBins), numBins, upto)
    ensures RowsLargest(bins[..upto]) == LargestGap(ps, RoundedGaps(ps, ys, numBins), numBins, upto)
  {
    if upto > 0 {
      CurveAggregates(bins, ps, ys, numBins, upto - 1);
      LastRow(bins, upto);
      RowGap(ps, ys, upto - 1, numBins);
    }
  }

  lemma LastRow(bins: seq<Bin>, upto: nat)
    requires 0 < upto <= |bins|
    ensures var b := bins[upto - 1];
            && RowsWeighted(bins[..upto])
               == RowsWeighted(bins[..upto - 1]) + (if Filled(b) then Weighted(b.count, b.gap.value) else 0.0)
            && RowsLargest(bins[..upto])
               == (var rest := RowsLargest(bins[..upto - 1]); if Filled(b) then Max(rest, Abs(b.gap.value)) else rest)
  {
    assert bins[..upto][..upto - 1] == bins[..upto - 1];
  }

  lemma RowGap(ps: seq<real>, ys: seq<int>, b: nat, numBins: nat)
    requires b < numBins && |ps| == |ys|
    ensures var row := BinRow(ps, ys, b, numBins);
            && row.count == BinCount(ps, b, numBins) && (Filled(row) <==> row.count > 0)
            && (Filled(row) ==> row.gap.value == RoundedGaps(ps, ys, numBins)[b])
  {
  }

  /** The published metrics, or an error for fewer than two samples or lists of different lengths. */
  method ComputeCalibrationMetrics(ps: seq<real>, ys: seq<int>) returns (r: Result<Metrics, MetricsError>)
    ensures r.Err? <==> |ps| < 2 || |ps| != |ys|
    ensures r.Err? ==> r.error == InsufficientData(|ps|)
    ensures r.Ok? ==> r.value.n == |ps|
    ensures r.Ok? ==> r.value.brier == Round(Brier(ps, ys), SCALE_4)
    ensures r.Ok? ==> r.value.ece == ReportedEce(ps, ys, 10) && r.value.mce == ReportedMce(ps, ys, 10)
    ensures r.Ok? ==> r.value.meanPredicted == Round(Mean(ps), SCALE_4)
    ensures r.Ok? ==> r.value.meanObserved == Round(Mean(Reals(ys)), SCALE_4)
    ensures r.Ok? ==> IsCurve(r.value.curve, ps, ys, 10)
  {
    var n := |ps|;
    if n < 2 || n != |ys| {
      return Err(InsufficientData(n));
    }
    var bins := CalibrationBins(ps, ys, NUM_BINS);
    var ece, mce := EceMce(bins, n);
    CurveAggregates(bins, ps, ys, NUM_BINS, NUM_BINS);
    assert bins[..NUM_BINS] == bins;
    r := Ok(Metrics(n, Round(Brier(ps, ys), SCALE_4), ece, mce,
                    Round(Mean(ps), SCALE_4), Round(Mean(Reals(ys)), SCALE_4), bins));
  }

  // ---------------------------------------------------------------- what the numbers are, told by the samples

  /** p lies in [0, 1] and, scaled by the number of bins, within the step from b to b + 1; 1.0 goes to the last bin. */
  ghost predicate FallsInto(p: real, b: nat, numBins: nat) {
    0.0 <= p <= 1.0 && (b as real <= p * numBins as real < b as real + 1.0 || (p == 1.0 && b + 1 == numBins))
  }

  /** A further sample adds its value and one count to the bin it falls into, and changes no other bin. */
  lemma OneMoreSample(ps: seq<real>, xs: seq<real>, p: real, x: real, b: nat, numBins: nat)
    requires b < numBins && |ps| == |xs|
    ensures BinSum([], [], b, numBins) == 0.0 && BinCount([], b, numBins) == 0
    ensures BinSum(ps + [p], xs + [x], b, numBins)
         == BinSum(ps, xs, b, numBins) + (if FallsInto(p, b, numBins) then x else 0.0)
    ensures BinCount(ps + [p], b, numBins) == BinCount(ps, b, numBins) + (if FallsInto(p, b, numBins) then 1 else 0)
  {
    InBinScaled(p, b, numBins, p * numBins as real);
    ScaledMembership(p, b, numBins, p * numBins as real);
    assert (ps + [p])[..|ps|] == ps && (xs + [x])[..|ps|] == xs;
  }

  lemma ScaledMembership(p: real, b: nat, numBins: nat, q: real)
    requires b < numBins && q == p * numBins as real
    ensures InScaledBin(q, b, numBins) <==> FallsInto(p, b, numBins)
  {
    UnitScaled(p, numBins as real);
    ScaleOrder(1.0, p, numBins as real);
  }

  /** A bin's gap, times its count, is what was predicted in it less what was observed; an empty bin has gap 0. */
  lemma GapTold(ps: seq<real>, ys: seq<int>, b: nat, numBins: nat)
    requires b < numBins && |ps| == |ys|
    ensures var n := BinCount(ps, b, numBins);
            Times(Gap(ps, ys, b, numBins), n) == BinSum(ps, ps, b, numBins) - BinSum(ps, Reals(ys), b, numBins)
            && (n == 0 ==> Gap(ps, ys, b, numBins) == 0.0)
  {
    if BinCount(ps, b, numBins) == 0 {
      EmptyBinSum(ps, ps, b, numBins);
      EmptyBinSum(ps, Reals(ys), b, numBins);
    } else {
      DifferenceTold(BinSum(ps, ps, b, numBins), BinSum(ps, Reals(ys), b, numBins), BinCount(ps, b, numBins));
    }
  }

  lemma DifferenceTold(a: real, b: real, n: nat)
    requires n > 0
    ensures Times(MeanDifference(a, b, n), n) == a - b
  {
    var k := n as real;
    assert (a / k) * k == a && (b / k) * k == b;
    assert (a / k - b / k) * k == (a / k) * k - (b / k) * k;
  }

  /**
   * A row of the curve: its bin's count and, unless it is empty, the mean of the predictions, the share of the
   * positives and the former less the latter, each to within 0.00005.
   */
  lemma RowTold(ps: seq<real>, ys: seq<int>, b: nat, numBins: nat, n: nat)
    requires b < numBins && |ps| == |ys| && n == BinCount(ps, b, numBins)
    ensures var row := BinRow(ps, ys, b, numBins);
            && row.count == n
            && (n == 0 <==> row.meanPredicted.None?) && (n == 0 <==> row.fractionPositive.None?)
            && (n == 0 <==> row.gap.None?)
    ensures n > 0 ==>
              var row := BinRow(ps, ys, b, numBins);
              && Abs(row.meanPredicted.value - BinSum(ps, ps, b, numBins) / n as real) <= 0.00005
              && Abs(row.fractionPositive.value - BinSum(ps, Reals(ys), b, numBins) / n as real) <= 0.00005
              && Abs(row.gap.value
                     - (BinSum(ps, ps, b, numBins) / n as real - BinSum(ps, Reals(ys), b, numBins) / n as real))
                 <= 0.00005
  {
    if n > 0 {
      RoundError(BinSum(ps, ps, b, numBins) / n as real, SCALE_4);
      RoundError(BinSum(ps, Reals(ys), b, numBins) / n as real, SCALE_4);
      RoundError(Gap(ps, ys, b, numBins), SCALE_4);
    }
  }

  /** A row's edges: those of its bin, to within 0.005. */
  lemma EdgesTold(ps: seq<real>, ys: seq<int>, b: nat, numBins: nat)
    requires b < numBins && |ps| == |ys|
    ensures Abs(BinRow(ps, ys, b, numBins).low - b as real / numBins as real) <= 0.005
    ensures Abs(BinRow(ps, ys, b, numBins).high - (b as real + 1.0) / numBins as real) <= 0.005
  {
    var k := numBins as real;
    var lo := b as real * BinWidth(numBins);
    assert lo == b as real / k;
    QuotientSum(b as real, 1.0, k);
    RoundError(lo, 100);
    RoundError(lo + BinWidth(numBins), 100);
  }

  /** The absolute sums of the residuals of the bins 0 .. upto-1. */
  ghost function AbsoluteSums(ps: seq<real>, ys: seq<int>, numBins: nat, upto: nat): real
    requires upto <= numBins && |ps| == |ys|
  {
    if upto == 0 then 0.0
    else AbsoluteSums(ps, ys, numBins, upto - 1) + Abs(BinSum(ps, Residuals(ps, ys), upto - 1, numBins))
  }

  /** The expected error: each bin's residuals summed, the absolute sums added up over the number of samples. */
  lemma EceTold(ps: seq<real>, ys: seq<int>, numBins: nat)
    requires |ps| == |ys| > 0
    ensures Ece(ps, ys, numBins) == AbsoluteSums(ps, ys, numBins, numBins) / |ps| as real
  {
    WeightedIsAbsolute(ps, ys, numBins, numBins);
  }

  lemma {:induction false} WeightedIsAbsolute(ps: seq<real>, ys: seq<int>, numBins: nat, upto: nat)
    requires upto <= numBins && |ps| == |ys|
    ensures WeightedGaps(ps, Gaps(ps, ys, numBins), numBins, upto) == AbsoluteSums(ps, ys, numBins, upto)
  {
    if upto > 0 {
      WeightedIsAbsolute(ps, ys, numBins, upto - 1);
      WeightedGapIsResidualSum(ps, ys, upto - 1, numBins);
    }
  }

  /** The maximum error is the absolute gap of some nonempty bin, and no nonempty bin has a larger one. */
  lemma MceTold(ps: seq<real>, ys: seq<int>, numBins: nat)
    requires |ps| == |ys|
    ensures forall b: nat | b < numBins && BinCount(ps, b, numBins) > 0 ::
              Abs(Gap(ps, ys, b, numBins)) <= Mce(ps, ys, numBins)
    ensures Mce(ps, ys, numBins) == 0.0
            || exists b: nat :: b < numBins && BinCount(ps, b, numBins) > 0
                                && Mce(ps, ys, numBins) == Abs(Gap(ps, ys, b, numBins))
  {
    var gaps := Gaps(ps, ys, numBins);
    forall b: nat | b < numBins && BinCount(ps, b, numBins) > 0
      ensures Abs(Gap(ps, ys, b, numBins)) <= Mce(ps, ys, numBins)
    {
      LargestGapBounds(ps, gaps, numBins, numBins, b);
    }
    LargestGapAttained(ps, gaps, numBins, numBins);
  }

  lemma {:induction false} LargestGapAttained(ps: seq<real>, gaps: seq<real>, numBins: nat, upto: nat)
    requires upto <= numBins == |gaps|
    ensures LargestGap(ps, gaps, numBins, upto) == 0.0
            || exists b: nat :: b < upto && BinCount(ps, b, numBins) > 0
                                && LargestGap(ps, gaps, numBins, upto) == Abs(gaps[b])
  {
    if upto > 0 { LargestGapAttained(ps, gaps, numBins, upto - 1); }
  }

  /** The mean of one number is that number; a further one is averaged in by weight. */
  lemma MeanTold(xs: seq<real>, x: real)
    ensures Mean([x]) == x
    ensures xs != [] ==> Mean(xs + [x]) == (Times(Mean(xs), |xs|) + x) / (|xs| + 1) as real
  {
    assert Sum([x][..0]) == 0.0 && Sum([x]) == Sum([x][..0]) + x;
    if xs != [] {
      assert (xs + [x])[..|xs|] == xs;
      QuotientTimes(Sum(xs), |xs|);
    }
  }

  lemma QuotientTimes(a: real, n: nat)
    requires n > 0
    ensures Times(a / n as real, n) == a
  {
  }

  /** The Brier score of one sample is its squared residual; a further sample's is averaged in by weight. */
  lemma BrierTold(ps: seq<real>, ys: seq<int>, p: real, y: int)
    requires |ps| == |ys|
    ensures Brier([p], [y]) == (p - y as real) * (p - y as real)
    ensures ps != [] ==>
              Brier(ps + [p], ys + [y])
              == (Times(Brier(ps, ys), |ps|) + (p - y as real) * (p - y as real)) / (|ps| + 1) as real
  {
    var d := p - y as real;
    assert Squares(Residuals([p], [y])) == [Square(d)];
    MeanTold(Squares(Residuals(ps, ys)), Square(d));
    assert Squares(Residuals(ps + [p], ys + [y])) == Squares(Residuals(ps, ys)) + [Square(d)];
  }
}
