/** The rolling z-score guard of the ingestion normaliser. */
module RollingGuard {
  import opened Wrappers
  import opened Statistics
  import opened IngestionModels

  /** The values pandas' trailing window of w rows holds at position i. */
  function Window(s: seq<real>, i: nat, w: nat): (win: seq<real>)
    requires i < |s| && w >= 1
    ensures 1 <= |win| <= w && win[|win| - 1] == s[i]
  {
    s[(if i + 1 >= w then i + 1 - w else 0)..i + 1]
  }

  function MinPeriods(w: nat): nat {
    if w / 2 > 1 then w / 2 else 1
  }

  /** Variance with the n - 1 divisor. */
  function SampleVariance(win: seq<real>): real
    requires |win| >= 2
  {
    SumSquares(Centered(win, Mean(win))) / (|win| - 1) as real
  }

  /** Whether the window yields a z-score at all; otherwise it is filled with zero. */
  predicate HasScore(win: seq<real>, w: nat) {
    |win| >= MinPeriods(w) && |win| >= 2 && SampleVariance(win) > 0.0
  }

  /** The absolute z-score exceeds the threshold, stated without the square root of the variance. */
  predicate IsOutlier(win: seq<real>, w: nat, threshold: real)
    requires win != []
  {
    if HasScore(win, w) then
      var dev := win[|win| - 1] - Mean(win);
      threshold < 0.0 || dev * dev > threshold * threshold * SampleVariance(win)
    else 0.0 > threshold
  }

  /** The guard's verdict at position i; series shorter than the window are left alone. */
  predicate Flagged(s: seq<Sample>, i: nat, w: nat, threshold: real)
    requires w >= 1
  {
    i < |s| && |s| >= w && IsOutlier(Window(Values(s), i, w), w, threshold)
  }

  /** The boolean column the guard iterates over. */
  function Outliers(s: seq<Sample>, w: nat, threshold: real): (mask: seq<bool>)
    requires w >= 1
    ensures |mask| == |s| && forall i | 0 <= i < |s| :: mask[i] <==> Flagged(s, i, w, threshold)
  {
    seq(|s|, i requires 0 <= i < |s| => Flagged(s, i, w, threshold))
  }

  function OutlierIssue(circuit: Id, ts: int): QualityIssue {
    QualityIssue(Outlier, Degraded, Some(circuit), Some(ts), Some(ts + HOUR))
  }

  /** One issue per flagged position, in time order. */
  function OutlierIssues(s: seq<Sample>, mask: seq<bool>, circuit: Id): seq<QualityIssue>
    requires |s| == |mask|
  {
    if s == [] then []
    else OutlierIssues(s[..|s| - 1], mask[..|s| - 1], circuit)
         + (if mask[|s| - 1] then [OutlierIssue(circuit, s[|s| - 1].ts)] else [])
  }

  /** The hours the flagged positions stand for. */
  function FlaggedStamps(s: seq<Sample>, mask: seq<bool>): set<int>
    requires |s| == |mask|
  {
    if s == [] then {}
    else FlaggedStamps(s[..|s| - 1], mask[..|s| - 1]) + (if mask[|s| - 1] then {s[|s| - 1].ts} else {})
  }

  function DegradedAt(stamps: set<int>): map<int, Status> {
    map ts | ts in stamps :: Degraded
  }

  method RollingZscoreGuard(hourly: seq<Sample>, circuit: Id, threshold: real, w: nat)
    returns (issues: seq<QualityIssue>, statuses: map<int, Status>)
    requires w >= 1
    ensures issues == OutlierIssues(hourly, Outliers(hourly, w, threshold), circuit)
    ensures statuses == DegradedAt(FlaggedStamps(hourly, Outliers(hourly, w, threshold)))
  {
    var mask := Outliers(hourly, w, threshold);
    if |hourly| < w {
      NothingFlagged(hourly, mask, circuit);
      return [], map[];
    }
    issues, statuses := CollectOutliers(hourly, mask, circuit);
  }

  /** The loop over the boolean column. */
  method CollectOutliers(hourly: seq<Sample>, mask: seq<bool>, circuit: Id)
    returns (issues: seq<QualityIssue>, statuses: map<int, Status>)
    requires |hourly| == |mask|
    ensures issues == OutlierIssues(hourly, mask, circuit)
    ensures statuses == DegradedAt(FlaggedStamps(hourly, mask))
  {
    issues, statuses := [], map[];
    for n := 0 to |hourly|
      invariant issues == OutlierIssues(hourly[..n], mask[..n], circuit)
      invariant statuses == DegradedAt(FlaggedStamps(hourly[..n], mask[..n]))
    {
      assert hourly[..n + 1][..n] == hourly[..n] && mask[..n + 1][..n] == mask[..n];
      if mask[n] {
        var ts := hourly[n].ts;
        statuses := statuses[ts := WorseStatus(StatusAt(statuses, ts), Degraded)];
        issues := issues + [OutlierIssue(circuit, ts)];
      }
    }
    assert hourly[..|hourly|] == hourly && mask[..|hourly|] == mask;
  }

  lemma {:induction false} NothingFlagged(s: seq<Sample>, mask: seq<bool>, circuit: Id)
    requires |s| == |mask| && forall i | 0 <= i < |mask| :: !mask[i]
    ensures OutlierIssues(s, mask, circuit) == [] && FlaggedStamps(s, mask) == {}
  {
    if s != [] {
      NothingFlagged(s[..|s| - 1], mask[..|s| - 1], circuit);
    }
  }

  /**
   An hour is degraded exactly when some position with that timestamp is flagged, and each such position has
   its issue.
   */
  lemma {:induction false} FlaggedStampsAre(s: seq<Sample>, mask: seq<bool>, circuit: Id, ts: int)
    requires |s| == |mask|
    ensures ts in FlaggedStamps(s, mask) <==> exists i :: 0 <= i < |s| && mask[i] && s[i].ts == ts
    ensures ts in FlaggedStamps(s, mask) <==> OutlierIssue(circuit, ts) in OutlierIssues(s, mask, circuit)
  {
    if s != [] {
      var n := |s| - 1;
      FlaggedStampsAre(s[..n], mask[..n], circuit, ts);
      assert forall i | 0 <= i < n :: s[..n][i] == s[i] && mask[..n][i] == mask[i];
    }
  }

  // ---------------------------------------------------------------- Samuelson's inequality

  lemma SamuelsonArithmetic(m: real, d: real, rest: real)
    requires m >= 1.0 && d * d <= (m - 1.0) * rest
    ensures m * (d * d) <= (m - 1.0) * (rest + d * d)
  {
  }

  /** No member of a sample of m lies further than (m-1)/sqrt(m) sample deviations from the mean. */
  lemma Samuelson(win: seq<real>)
    requires |win| >= 2
    ensures var m, dev := |win| as real, win[|win| - 1] - Mean(win);
            m * (dev * dev) <= (m - 1.0) * (m - 1.0) * SampleVariance(win)
  {
    var m := |win| as real;
    var d := Centered(win, Mean(win));
    var front, dev := d[..|d| - 1], d[|d| - 1];
    assert d == front + [dev];
    DeviationsCancel(win);
    SumAppend(front, [dev]);
    SingletonSums(dev);
    SumSquared(front);
    assert Sum(front) == -dev;
    SamuelsonArithmetic(m, dev, SumSquares(front));
    VarianceTimes(SumSquares(d), m - 1.0);
  }

  lemma RatioBound(m: real, dev2: real, k: real, variance: real)
    requires m > 0.0 && variance > 0.0 && m * dev2 <= k * variance
    ensures dev2 / variance <= k / m
  {
    var x, y := dev2 / variance, k / m;
    QuotientTimes(dev2, variance);
    QuotientTimes(k, m);
    assert m * (x * variance) == (x * variance) * m && k * variance == (y * m) * variance;
    assert (x * variance) * m == x * (variance * m) && (y * m) * variance == y * (variance * m);
    assert variance * m > 0.0;
    ScaledOrder(y, x, variance * m);
  }

  /** The squared z-score of the current value never exceeds (m-1)^2 / m. */
  lemma ZscoreSquaredBound(win: seq<real>)
    requires |win| >= 2 && SampleVariance(win) > 0.0
    ensures var m, dev := |win| as real, win[|win| - 1] - Mean(win);
            dev * dev / SampleVariance(win) <= (m - 1.0) * (m - 1.0) / m
  {
    var m, dev := |win| as real, win[|win| - 1] - Mean(win);
    assert m * (dev * dev) <= (m - 1.0) * (m - 1.0) * SampleVariance(win) by {
      Samuelson(win);
    }
    RatioBound(m, dev * dev, (m - 1.0) * (m - 1.0), SampleVariance(win));
  }

  lemma VarianceTimes(total: real, k: real)
    requires k > 0.0
    ensures k * total == k * k * (total / k)
  {
    QuotientTimes(total, k);
    assert k * k * (total / k) == k * (k * (total / k));
  }

  lemma BoundMonotone(m: real, w: real)
    requires 1.0 <= m <= w
    ensures (w - 1.0) * (w - 1.0) * m >= w * ((m - 1.0) * (m - 1.0))
  {
    var p := m * w;
    assert p >= m;
    assert (w - m) * (p - 1.0) >= 0.0;
    assert (w - 1.0) * (w - 1.0) * m == w * p - 2.0 * p + m;
    assert w * ((m - 1.0) * (m - 1.0)) == m * p - 2.0 * p + w;
    assert (w - m) * (p - 1.0) == w * p - w - m * p + m;
  }

  lemma BoundGrows(m: real, w: real, t2: real)
    requires 1.0 <= m <= w && (m - 1.0) * (m - 1.0) > m * t2
    ensures (w - 1.0) * (w - 1.0) > w * t2
  {
    BoundMonotone(m, w);
    assert (m * t2) * w == (w * t2) * m;
    CrossOrder((m - 1.0) * (m - 1.0), (w - 1.0) * (w - 1.0), m * t2, w * t2, m, w);
  }

  lemma CrossOrder(a: real, b: real, c: real, d: real, m: real, w: real)
    requires m > 0.0 && w > 0.0 && c < a && c * w == d * m && b * m >= w * a
    ensures d < b
  {
    ScaledOrder(c, a, w);
    ScaledOrder(d, b, m);
  }

  lemma OutlierNeedsRoom(m: real, dev2: real, variance: real, t2: real)
    requires m >= 2.0 && variance > 0.0 && dev2 > t2 * variance
    requires m * dev2 <= (m - 1.0) * (m - 1.0) * variance
    ensures (m - 1.0) * (m - 1.0) > m * t2
  {
    ScaledOrder(t2 * variance, dev2, m);
    assert (t2 * variance) * m == (m * t2) * variance;
    ScaledOrder(m * t2, (m - 1.0) * (m - 1.0), variance);
  }

  /** A window of w rows leaves room for an outlier beyond the threshold. */
  predicate HasRoom(w: nat, threshold: real) {
    threshold < 0.0 || (w as real - 1.0) * (w as real - 1.0) > w as real * (threshold * threshold)
  }

  /** Whatever the series, a position can be flagged only where the window has room for an outlier. */
  lemma FlaggedNeedsRoom(s: seq<Sample>, i: nat, w: nat, threshold: real)
    requires w >= 1 && Flagged(s, i, w, threshold)
    ensures HasRoom(w, threshold)
  {
    WindowNeedsRoom(Window(Values(s), i, w), w, threshold);
  }

  lemma WindowNeedsRoom(win: seq<real>, w: nat, threshold: real)
    requires 1 <= |win| <= w && IsOutlier(win, w, threshold)
    ensures HasRoom(w, threshold)
  {
    if threshold >= 0.0 {
      var t2 := threshold * threshold;
      OutlierWindow(win, w, threshold, t2);
      BoundGrows(|win| as real, w as real, t2);
    }
  }

  lemma OutlierWindow(win: seq<real>, w: nat, threshold: real, t2: real)
    requires win != [] && IsOutlier(win, w, threshold)
    requires threshold >= 0.0 && t2 == threshold * threshold
    ensures (|win| as real - 1.0) * (|win| as real - 1.0) > |win| as real * t2
  {
    var dev := win[|win| - 1] - Mean(win);
    Samuelson(win);
    OutlierNeedsRoom(|win| as real, dev * dev, SampleVariance(win), t2);
  }

  lemma NoRoomUpToTen(w: nat)
    requires 1 <= w <= 10
    ensures !HasRoom(w, 3.0)
  {
    if HasRoom(w, 3.0) {
      BoundGrows(w as real, 10.0, 9.0);
    }
  }

  /** With ten rows or fewer and the default threshold of 3 the guard is inert. */
  lemma InertUpToTen(s: seq<Sample>, i: nat, w: nat)
    requires 1 <= w <= 10
    ensures !Flagged(s, i, w, 3.0)
  {
    NoRoomUpToTen(w);
    if Flagged(s, i, w, 3.0) {
      FlaggedNeedsRoom(s, i, w, 3.0);
    }
  }

  // ---------------------------------------------------------------- the bound is attained

  function Zeros(n: nat): (z: seq<real>)
    ensures |z| == n
  {
    if n == 0 then [] else [0.0] + Zeros(n - 1)
  }

  lemma {:induction false} SpikeSums(n: nat)
    ensures Sum(Zeros(n)) == 0.0
    ensures SumSquares(Centered(Zeros(n), 1.0)) == n as real
  {
    if n > 0 {
      SpikeSums(n - 1);
      assert Centered(Zeros(n), 1.0)[1..] == Centered(Zeros(n - 1), 1.0);
    }
  }

  /** w - 1 zeros followed by the value w: mean 1, variance w, last deviation w - 1. */
  function Spike(w: nat): (s: seq<Sample>)
    requires w >= 1
    ensures |s| == w
  {
    seq(w, i => Sample(HOUR * i, if i == w - 1 then w as real else 0.0))
  }

  lemma {:induction false} ZerosAt(n: nat, i: nat)
    requires i < n
    ensures Zeros(n)[i] == 0.0
  {
    if i > 0 {
      ZerosAt(n - 1, i - 1);
    }
  }

  lemma SpikeWindow(w: nat)
    requires w >= 1
    ensures Window(Values(Spike(w)), w - 1, w) == Zeros(w - 1) + [w as real]
  {
    var z := Zeros(w - 1);
    forall i | 0 <= i < w - 1 ensures z[i] == 0.0 { ZerosAt(w - 1, i); }
  }

  lemma SpikeSum(n: nat, v: real)
    ensures Sum(Zeros(n) + [v]) == v
  {
    SpikeSums(n);
    SumAppend(Zeros(n), [v]);
  }

  lemma SpikeMean(w: nat)
    requires w >= 1
    ensures Mean(Zeros(w - 1) + [w as real]) == 1.0
  {
    SpikeSum(w - 1, w as real);
    QuotientIs(w as real, w as real, 1.0);
  }

  lemma SpikeSquares(n: nat, k: real)
    requires k == n as real
    ensures SumSquares(Centered(Zeros(n) + [k + 1.0], 1.0)) == k + k * k
  {
    SpikeCentered(n, k);
    SpikeSums(n);
    SumAppend(Centered(Zeros(n), 1.0), [k]);
    SingletonSums(k);
  }

  lemma SpikeCentered(n: nat, k: real)
    ensures Centered(Zeros(n) + [k + 1.0], 1.0) == Centered(Zeros(n), 1.0) + [k]
  {
  }

  lemma SpikeQuotient(k: real)
    requires k > 0.0
    ensures (k + k * k) / k == 1.0 + k
  {
    QuotientIs(k + k * k, k, 1.0 + k);
  }

  lemma SpikeVariance(w: nat)
    requires w >= 2
    ensures SampleVariance(Zeros(w - 1) + [w as real]) == w as real
  {
    var k := (w - 1) as real;
    SpikeMean(w);
    SpikeSquares(w - 1, k);
    SpikeQuotient(k);
  }

  lemma SpikeIsOutlier(win: seq<real>, w: nat, threshold: real, t2: real)
    requires |win| == w >= 2 && win[w - 1] == w as real
    requires Mean(win) == 1.0 && SampleVariance(win) == w as real
    requires t2 == threshold * threshold && (w as real - 1.0) * (w as real - 1.0) > w as real * t2
    ensures IsOutlier(win, w, threshold)
  {
    assert t2 * (w as real) == w as real * t2;
  }

  lemma SpikeFlagged(w: nat, threshold: real)
    requires w >= 1 && HasRoom(w, threshold)
    ensures Flagged(Spike(w), w - 1, w, threshold)
  {
    var win := Zeros(w - 1) + [w as real];
    SpikeWindow(w);
    assert IsOutlier(win, w, threshold) by {
      if threshold >= 0.0 {
        SquareNonNegative(threshold);
        SpikeMean(w);
        SpikeVariance(w);
        SpikeIsOutlier(win, w, threshold, threshold * threshold);
      }
    }
  }

  /** Exactly which configurations can ever flag a reading. */
  lemma GuardCanFlag(w: nat, threshold: real)
    requires w >= 1
    ensures (exists s: seq<Sample>, i: nat :: Flagged(s, i, w, threshold)) <==> HasRoom(w, threshold)
  {
    forall s: seq<Sample>, i: nat | Flagged(s, i, w, threshold) ensures HasRoom(w, threshold) {
      FlaggedNeedsRoom(s, i, w, threshold);
    }
    if HasRoom(w, threshold) {
      SpikeFlagged(w, threshold);
    }
  }

  // ---------------------------------------------------------------- when a window yields a score

  lemma {:induction false} ZeroSquares(d: seq<real>)
    requires forall i | 0 <= i < |d| :: d[i] == 0.0
    ensures SumSquares(d) == 0.0
  {
    if d != [] {
      ZeroSquares(d[1..]);
    }
  }

  ghost predicate Varies(win: seq<real>) {
    exists i, j :: 0 <= i < |win| && 0 <= j < |win| && win[i] != win[j]
  }

  lemma {:induction false} EqualTerms(d: seq<real>, x: real)
    requires forall k | 0 <= k < |d| :: d[k] == x
    ensures Sum(d) == |d| as real * x
  {
    if d != [] {
      EqualTerms(d[1..], x);
    }
  }

  lemma ZeroFactor(n: real, x: real)
    requires n > 0.0 && n * x == 0.0
    ensures x == 0.0
  {
  }

  lemma VaryingSquares(win: seq<real>, m: real, i: nat, j: nat)
    requires i < |win| && j < |win| && win[i] != win[j]
    ensures SumSquares(Centered(win, m)) > 0.0
  {
    var d := Centered(win, m);
    NonZeroPart(d, if d[i] != 0.0 then i else j);
  }

  lemma NonZeroPart(d: seq<real>, k: nat)
    requires k < |d| && d[k] != 0.0
    ensures SumSquares(d) > 0.0
  {
    var e := SquarePositive(d[k]);
    SquareIsPart(d, k);
    assert SumSquares(d) >= e;
  }

  lemma FlatSquares(win: seq<real>, d: seq<real>)
    requires win != [] && |d| == |win| && Sum(d) == 0.0 && forall k | 0 <= k < |d| :: d[k] == d[0]
    ensures SumSquares(d) == 0.0
  {
    EqualTerms(d, d[0]);
    ZeroFactor(|d| as real, d[0]);
    ZeroSquares(d);
  }

  /** The squared deviations of a window add up to more than zero exactly when its values vary. */
  lemma SquaresOfVarying(win: seq<real>)
    requires win != []
    ensures SumSquares(Centered(win, Mean(win))) > 0.0 <==> Varies(win)
  {
    DeviationsCancel(win);
    hide Mean;
    if i, j :| 0 <= i < |win| && 0 <= j < |win| && win[i] != win[j] {
      VaryingSquares(win, Mean(win), i, j);
    } else {
      FlatSquares(win, Centered(win, Mean(win)));
    }
  }

  lemma PositiveQuotientExactly(x: real, k: real)
    requires k > 0.0
    ensures x / k > 0.0 <==> x > 0.0
  {
    QuotientTimes(x, k);
    ScaledOrder(0.0, x / k, k);
    assert 0.0 * k == 0.0;
  }

  /**
   * A z-score exists exactly when at least two values, half a window rounded down, stand there and are
   * not all equal.
   */
  lemma HasScoreMeans(win: seq<real>, w: nat)
    requires win != []
    ensures HasScore(win, w) <==> |win| >= 2 && 2 * |win| + 1 >= w && Varies(win)
  {
    if |win| >= 2 {
      PositiveQuotientExactly(SumSquares(Centered(win, Mean(win))), (|win| - 1) as real);
      SquaresOfVarying(win);
    }
  }

  lemma SameWindow(s: seq<real>, i: nat, whole: seq<real>, shift: nat, w: nat)
    requires 1 <= w <= i + 1 && i < |s| && shift + |s| <= |whole|
    requires forall k | 0 <= k < |s| :: whole[shift + k] == s[k]
    ensures Window(whole, shift + i, w) == Window(s, i, w)
  {
    var p, q := Window(whole, shift + i, w), Window(s, i, w);
    assert |p| == |q| == w;
    forall k | 0 <= k < w ensures p[k] == q[k] {
      assert p[k] == whole[shift + (i + 1 - w + k)];
    }
  }

  /** Once a full window stands before it, a verdict depends on that window alone; a shorter series has no verdict. */
  lemma OnlyWindowMatters(earlier: seq<Sample>, s: seq<Sample>, later: seq<Sample>, i: nat, w: nat, threshold: real)
    requires w >= 1 && i < |s|
    ensures |s| < w ==> !Flagged(s, i, w, threshold)
    ensures w <= i + 1 ==>
              (Flagged(earlier + s + later, |earlier| + i, w, threshold) <==> Flagged(s, i, w, threshold))
  {
    hide IsOutlier, Window;
    if w <= i + 1 {
      SameWindow(Values(s), i, Values(earlier + s + later), |earlier|, w);
    }
  }

  /** An outlier's issue covers the hour of 3600 seconds that starts at its instant. */
  lemma OutlierIssueMeans(circuit: Id, ts: int)
    ensures var i := OutlierIssue(circuit, ts);
            && i.issueType == Outlier && i.severity == Degraded && i.circuit == Some(circuit)
            && i.tsStart == Some(ts) && i.tsEnd == Some(ts + 3600)
  {
  }
}
