/** Robust z-scores of STL residuals: median, MAD, its two fallbacks and the scale floor. */
module ResidualScores {
  import opened Sorting
  import opened Statistics

  const CONSISTENCY := 1.4826
  const SCALE_FLOOR := 0.000001

  predicate AtMost(a: real, b: real) { a <= b }

  function Median(s: seq<real>): real
    requires s != []
  {
    assert |Sort(s, AtMost)| == |s| by { SortProperties(s, AtMost); }
    Middle(Sort(s, AtMost))
  }

  /** The middle of a sorted sample. */
  function Middle(t: seq<real>): real
    requires t != []
  {
    var k := |t| / 2;
    if |t| % 2 == 1 then t[k] else (t[k - 1] + t[k]) / 2.0
  }

  function Deviations(s: seq<real>, centre: real): (d: seq<real>)
    ensures |d| == |s|
    ensures forall i | 0 <= i < |s| :: d[i] == Abs(s[i] - centre)
  {
    if s == [] then [] else [Abs(s[0] - centre)] + Deviations(s[1..], centre)
  }

  /** MAD, or the mean absolute deviation where MAD is zero. */
  function Spread(s: seq<real>): real
    requires s != []
  {
    SpreadOf(Deviations(s, Median(s)))
  }

  function SpreadOf(dev: seq<real>): real
    requires dev != []
  {
    if Median(dev) == 0.0 then Mean(dev) else Median(dev)
  }

  function Scale(spread: real): real {
    if CONSISTENCY * spread < SCALE_FLOOR then SCALE_FLOOR else CONSISTENCY * spread
  }

  function Zscore(x: real, centre: real, spread: real): real
    requires spread >= 0.0
  {
    if spread == 0.0 then 0.0 else (x - centre) / Scale(spread)
  }

  function ComputeResidualZscores(residuals: seq<real>): (z: seq<real>)
    ensures |z| == |residuals|
  {
    if residuals == [] then []
    else
      SpreadAtLeastMad(residuals);
      Scored(residuals, Median(residuals), Spread(residuals))
  }

  function Scored(residuals: seq<real>, centre: real, spread: real): (z: seq<real>)
    requires spread >= 0.0
    ensures |z| == |residuals|
    ensures forall i | 0 <= i < |z| :: z[i] == Zscore(residuals[i], centre, spread)
  {
    seq(|residuals|, i requires 0 <= i < |residuals| => Zscore(residuals[i], centre, spread))
  }

  function FlagAnomalies(zscores: seq<real>, threshold: real): (mask: seq<bool>)
    ensures |mask| == |zscores|
  {
    seq(|zscores|, i requires 0 <= i < |zscores| => Abs(zscores[i]) > threshold)
  }

  function CountTrue(mask: seq<bool>): nat {
    if mask == [] then 0 else (if mask[0] then 1 else 0) + CountTrue(mask[1..])
  }

  // ---------------------------------------------------------------- order statistics

  function CountAbove(s: seq<real>, m: real): nat {
    if s == [] then 0 else (if s[0] > m then 1 else 0) + CountAbove(s[1..], m)
  }

  function CountBelow(s: seq<real>, m: real): nat {
    if s == [] then 0 else (if s[0] < m then 1 else 0) + CountBelow(s[1..], m)
  }

  lemma {:induction false} CountsOfInsert(x: real, s: seq<real>, m: real)
    ensures CountAbove(Insert(x, s, AtMost), m) == CountAbove(s, m) + (if x > m then 1 else 0)
    ensures CountBelow(Insert(x, s, AtMost), m) == CountBelow(s, m) + (if x < m then 1 else 0)
  {
    if s == [] || x <= s[0] {
      assert ([x] + s)[1..] == s;
    } else {
      CountsOfInsert(x, s[1..], m);
      assert ([s[0]] + Insert(x, s[1..], AtMost))[1..] == Insert(x, s[1..], AtMost);
    }
  }

  lemma {:induction false} CountsOfSort(s: seq<real>, m: real)
    ensures CountAbove(Sort(s, AtMost), m) == CountAbove(s, m)
    ensures CountBelow(Sort(s, AtMost), m) == CountBelow(s, m)
  {
    if s != [] {
      CountsOfSort(s[1..], m);
      CountsOfInsert(s[0], Sort(s[1..], AtMost), m);
    }
  }

  lemma SortedReals(s: seq<real>)
    ensures |Sort(s, AtMost)| == |s|
    ensures forall i, j | 0 <= i <= j < |s| :: Sort(s, AtMost)[i] <= Sort(s, AtMost)[j]
    ensures forall i | 0 <= i < |s| :: Sort(s, AtMost)[i] in s
  {
    SortProperties(s, AtMost);
    SortMembers(s, AtMost);
    var t := Sort(s, AtMost);
    forall i, j | 0 <= i <= j < |t| ensures t[i] <= t[j] {
      assert i < j ==> AtMost(t[i], t[j]);
    }
  }

  lemma {:induction false} CountAboveTail(t: seq<real>, k: nat, m: real)
    requires k <= |t| && forall i | 0 <= i < k :: t[i] <= m
    ensures CountAbove(t, m) <= |t| - k
  {
    if t != [] {
      CountAboveTail(t[1..], if k == 0 then 0 else k - 1, m);
    }
  }

  lemma {:induction false} CountBelowHead(t: seq<real>, k: nat, m: real)
    requires k <= |t| && forall i | k <= i < |t| :: m <= t[i]
    ensures CountBelow(t, m) <= k
  {
    if t != [] {
      CountBelowHead(t[1..], if k == 0 then 0 else k - 1, m);
    }
  }

  /** At most half of a sample lies strictly above its median, and at most half strictly below. */
  lemma MedianSplits(s: seq<real>)
    requires s != []
    ensures 2 * CountAbove(s, Median(s)) <= |s|
    ensures 2 * CountBelow(s, Median(s)) <= |s|
  {
    var t := Sort(s, AtMost);
    SortedReals(s);
    var k, m := |t| / 2, Median(s);
    CountsOfSort(s, m);
    CountBelowHead(t, k, m);
    CountAboveTail(t, if |t| % 2 == 1 then k + 1 else k, m);
  }

  lemma {:induction false} CountsDominate(mask: seq<bool>, dev: seq<real>, m: real)
    requires |mask| == |dev| && forall i | 0 <= i < |mask| :: mask[i] ==> dev[i] > m
    ensures CountTrue(mask) <= CountAbove(dev, m)
  {
    if mask != [] {
      CountsDominate(mask[1..], dev[1..], m);
    }
  }

  lemma MedianNonNegative(s: seq<real>)
    requires s != [] && forall i | 0 <= i < |s| :: s[i] >= 0.0
    ensures Median(s) >= 0.0
  {
    SortedReals(s);
  }

  lemma MeanNonNegative(s: seq<real>)
    requires s != [] && forall i | 0 <= i < |s| :: s[i] >= 0.0
    ensures Mean(s) >= 0.0
  {
    SumNonNegative(s);
  }

  lemma SpreadAtLeastMad(s: seq<real>)
    requires s != []
    ensures Spread(s) >= 0.0
    ensures Spread(s) >= Median(Deviations(s, Median(s))) >= 0.0
  {
    var dev := Deviations(s, Median(s));
    MeanNonNegative(dev);
    MedianNonNegative(dev);
  }

  // ---------------------------------------------------------------- the half bound

  /** A residual is flagged exactly when it deviates from the centre by more than t scale units. */
  lemma FlaggedIff(x: real, centre: real, spread: real, t: real)
    requires spread >= 0.0
    ensures spread == 0.0 ==> (Abs(Zscore(x, centre, spread)) > t <==> 0.0 > t)
    ensures spread != 0.0 ==> (Abs(Zscore(x, centre, spread)) > t <==> Abs(x - centre) > t * Scale(spread))
  {
    QuotientAbs(x - centre, Scale(spread));
    QuotientAbove(Abs(x - centre), Scale(spread), t);
  }

  lemma FlagNeedsDeviation(x: real, centre: real, mad: real, spread: real, t: real)
    requires spread >= mad >= 0.0 && CONSISTENCY * t >= 1.0
    requires Abs(Zscore(x, centre, spread)) > t
    ensures Abs(x - centre) > mad
  {
    FlaggedIff(x, centre, spread, t);
    ScaleCoversSpread(spread, t);
  }

  lemma ScaleCoversSpread(spread: real, t: real)
    requires spread >= 0.0 && CONSISTENCY * t >= 1.0
    ensures t * Scale(spread) >= spread
  {
    MulMono(t, CONSISTENCY * spread, Scale(spread));
    MulMono(spread, 1.0, CONSISTENCY * t);
    assert t * (CONSISTENCY * spread) == spread * (CONSISTENCY * t);
  }

  lemma QuotientAbs(x: real, scale: real)
    requires scale > 0.0
    ensures Abs(x / scale) == Abs(x) / scale
  {
    if x >= 0.0 {
      assert x / scale >= 0.0;
    } else {
      assert (-x) / scale > 0.0;
      assert (-x) / scale == -(x / scale);
    }
  }

  lemma QuotientAbove(x: real, scale: real, t: real)
    requires scale > 0.0
    ensures x / scale > t <==> x > t * scale
  {
    assert (x / scale) * scale == x;
    if x / scale > t {
      assert (x / scale - t) * scale > 0.0;
    } else {
      assert (t - x / scale) * scale >= 0.0;
    }
  }

  lemma MulMono(a: real, x: real, y: real)
    requires a >= 0.0 && x <= y
    ensures a * x <= a * y
  {
    assert a * (y - x) >= 0.0;
  }

  ghost predicate AtMostHalf(r: seq<real>, t: real) {
    2 * CountTrue(FlagAnomalies(ComputeResidualZscores(r), t)) <= |r|
  }

  /** Through every path of the scale estimate, no more than half of a cohort is flagged. */
  lemma AtMostHalfFlagged(r: seq<real>, t: real)
    requires CONSISTENCY * t >= 1.0
    ensures AtMostHalf(r, t)
  {
    if r != [] {
      var dev := Deviations(r, Median(r));
      var mask := FlagAnomalies(ComputeResidualZscores(r), t);
      forall i | 0 <= i < |mask| && mask[i] ensures dev[i] > Median(dev) {
        SpreadAtLeastMad(r);
        FlagNeedsDeviation(r[i], Median(r), Median(dev), Spread(r), t);
      }
      CountsDominate(mask, dev, Median(dev));
      MedianSplits(dev);
    }
  }

  /** Below that threshold the bound fails: two of the three residuals -1, 0, 1 are flagged. */
  lemma HalfBoundFails(t: real)
    requires CONSISTENCY * t < 1.0
    ensures !AtMostHalf([-1.0, 0.0, 1.0], t)
  {
    var r := [-1.0, 0.0, 1.0];
    assert Sort(r[2..], AtMost) == [1.0];
    assert Sort(r[1..], AtMost) == [0.0, 1.0] by { assert r[1..][1..] == r[2..]; }
    assert Sort(r, AtMost) == r;
    assert Median(r) == 0.0;
    var dev := Deviations(r, 0.0);
    assert dev == [1.0, 0.0, 1.0];
    assert Sort(dev[2..], AtMost) == [1.0];
    assert Sort(dev[1..], AtMost) == [0.0, 1.0] by { assert dev[1..][1..] == dev[2..]; }
    assert Insert(1.0, [1.0], AtMost) == [1.0, 1.0];
    assert Sort(dev, AtMost) == [0.0, 1.0, 1.0] by { assert [0.0, 1.0][1..] == [1.0]; }
    assert Median(dev) == 1.0;
    assert Spread(r) == 1.0 && Scale(1.0) == CONSISTENCY;
    FlaggedIff(-1.0, 0.0, 1.0, t);
    FlaggedIff(1.0, 0.0, 1.0, t);
    var mask := FlagAnomalies(ComputeResidualZscores(r), t);
    assert mask[0] && mask[2];
    assert mask[1..][1..] == [mask[2]];
    assert CountTrue(mask[1..]) >= 1;
  }

  /** The thresholds that never flag more than half of any cohort are exactly those with 1.4826 t >= 1. */
  lemma HalfBoundExact(t: real)
    ensures 1.4826 * t >= 1.0 <==>
            forall r: seq<real> :: AtMostHalf(r, t)
  {
    if CONSISTENCY * t >= 1.0 {
      forall r: seq<real> ensures AtMostHalf(r, t) {
        AtMostHalfFlagged(r, t);
      }
    } else {
      HalfBoundFails(t);
    }
  }

  // ---------------------------------------------------------------- masking resistance

  function CountNear(s: seq<real>, c: real, d: real): nat {
    if s == [] then 0 else (if Abs(s[0] - c) <= d then 1 else 0) + CountNear(s[1..], c, d)
  }

  lemma {:induction false} NearOutsideMedian(s: seq<real>, c: real, d: real, m: real)
    ensures m > c + d ==> CountNear(s, c, d) <= CountBelow(s, m)
    ensures m < c - d ==> CountNear(s, c, d) <= CountAbove(s, m)
  {
    if s != [] {
      NearOutsideMedian(s[1..], c, d, m);
    }
  }

  lemma {:induction false} NearDeviations(s: seq<real>, c: real, d: real, centre: real)
    requires Abs(centre - c) <= d
    ensures CountNear(s, c, d) <= CountNear(Deviations(s, centre), 0.0, 2.0 * d)
  {
    if s != [] {
      NearDeviations(s[1..], c, d, centre);
      assert Deviations(s, centre)[1..] == Deviations(s[1..], centre);
    }
  }

  lemma MajorityHoldsMedian(s: seq<real>, c: real, d: real)
    requires s != [] && 2 * CountNear(s, c, d) > |s|
    ensures Abs(Median(s) - c) <= d
  {
    MedianSplits(s);
    NearOutsideMedian(s, c, d, Median(s));
  }

  lemma MajorityOfDeviations(r: seq<real>, c: real, d: real, m: real)
    requires 2 * CountNear(r, c, d) > |r| && Abs(m - c) <= d
    ensures var dev := Deviations(r, m); 2 * CountNear(dev, 0.0, 2.0 * d) > |dev|
  {
    NearDeviations(r, c, d, m);
  }

  lemma MajorityBoundsMad(r: seq<real>, c: real, d: real, m: real)
    requires r != [] && 2 * CountNear(r, c, d) > |r| && Abs(m - c) <= d
    ensures Median(Deviations(r, m)) <= 2.0 * d
  {
    MajorityOfDeviations(r, c, d, m);
    MajorityHoldsMedian(Deviations(r, m), 0.0, 2.0 * d);
  }

  lemma FarIsFlagged(x: real, m: real, c: real, d: real, spread: real, t: real, reach: real)
    requires 0.0 < spread <= 2.0 * d && t >= 0.0 && reach == t * Scale(2.0 * d)
    requires Abs(m - c) <= d && Abs(x - c) > d + reach
    ensures Abs(Zscore(x, m, spread)) > t
  {
    assert Abs(x - m) > reach;
    assert Scale(spread) <= Scale(2.0 * d);
    assert t * Scale(spread) <= reach by {
      MulMono(t, Scale(spread), Scale(2.0 * d));
    }
    FlaggedIff(x, m, spread, t);
  }

  /** Wherever the spread in use is positive and no wider than the majority, everything far enough away is flagged. */
  lemma SpreadResistance(r: seq<real>, c: real, d: real, t: real, reach: real, i: nat)
    requires i < |r| && t >= 0.0
    requires 2 * CountNear(r, c, d) > |r|
    requires 0.0 < Spread(r) <= 2.0 * d
    requires reach == t * Scale(2.0 * d) && Abs(r[i] - c) > d + reach
    ensures FlagAnomalies(ComputeResidualZscores(r), t)[i]
  {
    MajorityHoldsMedian(r, c, d);
    FarIsFlagged(r[i], Median(r), c, d, Spread(r), t, reach);
  }

  predicate MadPositive(r: seq<real>) {
    r != [] && Median(Deviations(r, Median(r))) > 0.0
  }

  /**
   A minority of residuals, however large, cannot hide while MAD is positive: once more than half
   of the cohort lies within d of some value, everything far enough away is flagged.
   */
  lemma MaskingResistance(r: seq<real>, c: real, d: real, t: real, reach: real, i: nat)
    requires i < |r| && t >= 0.0
    requires 2 * CountNear(r, c, d) > |r| && MadPositive(r)
    requires reach == t * Scale(2.0 * d) && Abs(r[i] - c) > d + reach
    ensures FlagAnomalies(ComputeResidualZscores(r), t)[i]
  {
    MajorityHoldsMedian(r, c, d);
    MajorityBoundsMad(r, c, d, Median(r));
    SpreadResistance(r, c, d, t, reach, i);
  }

  // ---------------------------------------------------------------- what the fallback gives up

  lemma {:induction false} ZeroSum(s: seq<real>)
    requires Sum(s) == 0.0 && forall i | 0 <= i < |s| :: s[i] >= 0.0
    ensures forall i | 0 <= i < |s| :: s[i] == 0.0
  {
    if s != [] {
      SumNonNegative(s[1..]);
      ZeroSum(s[1..]);
    }
  }

  lemma ZeroMean(s: seq<real>)
    requires s != [] && Mean(s) == 0.0 && forall i | 0 <= i < |s| :: s[i] >= 0.0
    ensures forall i | 0 <= i < |s| :: s[i] == 0.0
  {
    QuotientTimes(Sum(s), |s| as real);
    ZeroSum(s);
  }

  /** The spread vanishes only on a flat cohort. */
  lemma ZeroSpreadIsFlat(s: seq<real>)
    requires s != [] && Spread(s) == 0.0
    ensures forall i | 0 <= i < |s| :: s[i] == Median(s)
  {
    var dev := Deviations(s, Median(s));
    SpreadAtLeastMad(s);
    ZeroMean(dev);
    forall i | 0 <= i < |s| ensures s[i] == Median(s) {
      assert dev[i] == Abs(s[i] - Median(s));
    }
  }

  lemma {:induction false} AllNear(s: seq<real>, c: real)
    requires forall i | 0 <= i < |s| :: s[i] == c
    ensures CountNear(s, c, 0.0) == |s|
  {
    if s != [] {
      AllNear(s[1..], c);
    }
  }

  ghost predicate Flat(r: seq<real>) {
    forall i, j | 0 <= i < j < |r| :: r[i] == r[j]
  }

  lemma FlatScoresZero(r: seq<real>, i: nat)
    requires Flat(r) && i < |r|
    ensures ComputeResidualZscores(r)[i] == 0.0
  {
    assert forall k | 0 <= k < |r| :: r[k] == r[0];
    AllNear(r, r[0]);
    MajorityHoldsMedian(r, r[0], 0.0);
    SpreadAtLeastMad(r);
    assert Zscore(r[0], r[0], Spread(r)) == 0.0;
  }

  lemma ZeroScoreIsMedian(x: real, m: real, spread: real)
    requires spread > 0.0 && Zscore(x, m, spread) == 0.0
    ensures x == m
  {
    QuotientTimes(x - m, Scale(spread));
  }

  lemma ZeroScoresFlat(r: seq<real>, i: nat)
    requires forall k | 0 <= k < |r| :: ComputeResidualZscores(r)[k] == 0.0
    requires i < |r|
    ensures r[i] == Median(r)
  {
    SpreadAtLeastMad(r);
    if Spread(r) == 0.0 {
      ZeroSpreadIsFlat(r);
    } else {
      assert ComputeResidualZscores(r)[i] == 0.0;
      ZeroScoreIsMedian(r[i], Median(r), Spread(r));
    }
  }

  /** All scores are zero exactly on a flat cohort; a zero MAD alone does not make them zero. */
  lemma ZerosExactly(r: seq<real>)
    ensures (forall i | 0 <= i < |r| :: ComputeResidualZscores(r)[i] == 0.0) <==> Flat(r)
  {
    if Flat(r) {
      forall i | 0 <= i < |r| ensures ComputeResidualZscores(r)[i] == 0.0 {
        FlatScoresZero(r, i);
      }
    }
    if forall i | 0 <= i < |r| :: ComputeResidualZscores(r)[i] == 0.0 {
      forall i, j | 0 <= i < j < |r| ensures r[i] == r[j] {
        ZeroScoresFlat(r, i);
        ZeroScoresFlat(r, j);
      }
    }
  }

  lemma OneMore(x: real, s: seq<real>, c: real, d: real)
    ensures CountNear([x] + s, c, d) == (if Abs(x - c) <= d then 1 else 0) + CountNear(s, c, d)
    ensures Sum([x] + s) == x + Sum(s)
  {
    assert ([x] + s)[1..] == s;
  }

  lemma FiveReadings(a: real, b: real)
    requires a > 0.0 && b > 0.0
    ensures var r := [0.0, 0.0, 0.0, a, b];
            CountNear(r, 0.0, 0.0) == 3 && Median(r) == 0.0 && !MadPositive(r) && Spread(r) == (a + b) / 5.0
  {
    var r := [0.0, 0.0, 0.0, a, b];
    FiveTotals(a, b);
    MajorityHoldsMedian(r, 0.0, 0.0);
    assert Deviations(r, 0.0) == r;
  }

  lemma FiveTotals(a: real, b: real)
    requires a > 0.0 && b > 0.0
    ensures var r := [0.0, 0.0, 0.0, a, b]; CountNear(r, 0.0, 0.0) == 3 && Sum(r) == a + b
  {
    var s1 := [b];
    var s2 := [a] + s1;
    var s3 := [0.0] + s2;
    var s4 := [0.0] + s3;
    assert [0.0, 0.0, 0.0, a, b] == [0.0] + s4;
    assert s1 == [b] + [];
    OneMore(b, [], 0.0, 0.0);
    OneMore(a, s1, 0.0, 0.0);
    OneMore(0.0, s2, 0.0, 0.0);
    OneMore(0.0, s3, 0.0, 0.0);
    OneMore(0.0, s4, 0.0, 0.0);
  }

  lemma {:induction false} NearMonotone(s: seq<real>, c: real, d: real, e: real)
    requires d <= e
    ensures CountNear(s, c, d) <= CountNear(s, c, e)
  {
    if s != [] {
      NearMonotone(s[1..], c, d, e);
    }
  }

  lemma SpreadCovers(a: real, b: real, t: real, spread: real)
    requires t >= 0.0 && spread == (a + b) / 5.0 && spread >= 0.0 && t * (a + b) >= 5.0 * a
    ensures a <= t * Scale(spread)
  {
    MulMono(t, spread, Scale(spread));
    assert t * spread == t * (a + b) / 5.0;
  }

  lemma CoveredIsHidden(a: real, t: real, spread: real)
    requires a > 0.0 && spread > 0.0 && a <= t * Scale(spread)
    ensures Abs(Zscore(a, 0.0, spread)) <= t
  {
    FlaggedIff(a, 0.0, spread, t);
  }

  /** Three equal residuals of five: the fourth is hidden by the fifth once the fifth is large enough. */
  lemma HiddenBySpike(a: real, b: real, t: real)
    requires a > 0.0 && b > 0.0 && t >= 0.0 && t * (a + b) >= 5.0 * a
    ensures !FlagAnomalies(ComputeResidualZscores([0.0, 0.0, 0.0, a, b]), t)[3]
  {
    var spread := (a + b) / 5.0;
    FiveReadings(a, b);
    SpreadCovers(a, b, t, spread);
    CoveredIsHidden(a, t, spread);
  }

  /** Three of five residuals are equal, yet the spike of 1000 hides the residual of 10 from threshold 3. */
  lemma MaskedByOneSpike()
    ensures var r := [0.0, 0.0, 0.0, 10.0, 1000.0];
            2 * CountNear(r, 0.0, 0.0) > |r| && Abs(r[3] - 0.0) > 0.0 + 3.0 * Scale(0.0)
            && !FlagAnomalies(ComputeResidualZscores(r), 3.0)[3]
  {
    FiveReadings(10.0, 1000.0);
    HiddenBySpike(10.0, 1000.0, 3.0);
  }

  /** Under a majority within d of c, a residual further than d + reach from c is flagged. */
  predicate Exposed(r: seq<real>, c: real, i: nat, t: real, d: real, reach: real) {
    i < |r| && 2 * CountNear(r, c, d) > |r| && Abs(r[i] - c) > d + reach ==>
      FlagAnomalies(ComputeResidualZscores(r), t)[i]
  }

  /** This reach exposes every distant residual, of all cohorts or only of those with positive MAD. */
  ghost predicate ReachWorks(t: real, d: real, reach: real, zeroMadToo: bool) {
    forall r: seq<real>, c: real, i: nat :: zeroMadToo || MadPositive(r) ==> Exposed(r, c, i, t, d, reach)
  }

  lemma ReachWhileMadPositive(t: real, d: real)
    requires t >= 0.0
    ensures ReachWorks(t, d, t * Scale(2.0 * d), false)
  {
    var reach := t * Scale(2.0 * d);
    forall r: seq<real>, c: real, i: nat ensures MadPositive(r) ==> Exposed(r, c, i, t, d, reach) {
      if MadPositive(r) && i < |r| && 2 * CountNear(r, c, d) > |r| && Abs(r[i] - c) > d + reach {
        MaskingResistance(r, c, d, t, reach, i);
      }
    }
  }

  lemma LargeEnoughSpike(a: real, t: real) returns (b: real)
    requires a > 0.0 && t > 0.0
    ensures b > 0.0 && t * (a + b) >= 5.0 * a
  {
    b := 5.0 * a / t;
    QuotientTimes(5.0 * a, t);
    PositiveQuotient(5.0 * a, t);
    assert t * (a + b) == t * a + b * t;
    MulMono(t, 0.0, a);
  }

  lemma NoReachOnZeroMad(t: real, d: real, reach: real)
    requires t > 0.0 && d >= 0.0
    ensures !ReachWorks(t, d, reach, true)
  {
    var a := d + Abs(reach) + 1.0;
    var b := LargeEnoughSpike(a, t);
    var r := [0.0, 0.0, 0.0, a, b];
    FiveReadings(a, b);
    HiddenBySpike(a, b, t);
    NearMonotone(r, 0.0, 0.0, d);
    assert !Exposed(r, 0.0, 3, t, d, reach);
  }

  lemma PositiveQuotient(x: real, k: real)
    requires x > 0.0 && k > 0.0
    ensures x / k > 0.0
  {
  }

  lemma DistantNotFlat(r: seq<real>, c: real, i: nat, d: real)
    requires i < |r| && 2 * CountNear(r, c, d) > |r| && Abs(r[i] - c) > d
    ensures r[i] != Median(r) && Spread(r) > 0.0
  {
    MajorityHoldsMedian(r, c, d);
    SpreadAtLeastMad(r);
    if Spread(r) == 0.0 {
      ZeroSpreadIsFlat(r);
    }
  }

  lemma ZeroThresholdExposes(d: real)
    ensures ReachWorks(0.0, d, 0.0, true)
  {
    forall r: seq<real>, c: real, i: nat ensures Exposed(r, c, i, 0.0, d, 0.0) {
      if i < |r| && 2 * CountNear(r, c, d) > |r| && Abs(r[i] - c) > d {
        DistantNotFlat(r, c, i, d);
        FlaggedIff(r[i], Median(r), Spread(r), 0.0);
      }
    }
  }

  /**
   Some reach exposes every distant residual of every cohort with a tight majority exactly when cohorts
   with zero MAD are set aside, or the threshold is zero.
   */
  lemma ReachExistsExactly(t: real, d: real, zeroMadToo: bool)
    requires t >= 0.0 && d >= 0.0
    ensures (exists reach :: ReachWorks(t, d, reach, zeroMadToo)) <==> !zeroMadToo || t == 0.0
  {
    if !zeroMadToo {
      ReachWhileMadPositive(t, d);
    } else if t == 0.0 {
      ZeroThresholdExposes(d);
    } else {
      forall reach ensures !ReachWorks(t, d, reach, true) {
        NoReachOnZeroMad(t, d, reach);
      }
    }
  }
}
