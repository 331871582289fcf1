/** How the robust scores of a cohort follow its residuals: midpoints, shifts, reflection and changes of unit. */
module ScoreSymmetries {
  import opened Sorting
  import opened Statistics
  import opened ResidualScores

  // ---------------------------------------------------------------- the middle of a sample

  /**
   The median of an even sample is the midpoint of its two middle members: nothing lies strictly between them, and
   each bounds at least half of the sample.
   */
  lemma MedianIsMidpoint(s: seq<real>) returns (lo: real, hi: real)
    requires s != [] && |s| % 2 == 0
    ensures lo in s && hi in s && lo <= hi
    ensures 2 * (|s| - CountAbove(s, lo)) >= |s| && 2 * (|s| - CountBelow(s, hi)) >= |s|
    ensures forall x | x in s :: x <= lo || hi <= x
    ensures Median(s) - lo == hi - Median(s)
  {
    var t, k := Sort(s, AtMost), |s| / 2;
    SortedReals(s);
    SortMembers(s, AtMost);
    lo, hi := t[k - 1], t[k];
    CountsOfSort(s, lo);
    CountsOfSort(s, hi);
    CountAboveTail(t, k, lo);
    CountBelowHead(t, k, hi);
    forall x | x in s ensures x <= lo || hi <= x {
      assert x in t;
    }
  }

  /** The median of an odd sample is one of its members. */
  lemma MedianIsMember(s: seq<real>)
    requires |s| % 2 == 1
    ensures Median(s) in s
  {
    SortedReals(s);
  }

  // ---------------------------------------------------------------- images under increasing functions

  function Mapped(s: seq<real>, f: real -> real): (r: seq<real>)
    ensures |r| == |s| && forall i | 0 <= i < |s| :: r[i] == f(s[i])
  {
    seq(|s|, i requires 0 <= i < |s| => f(s[i]))
  }

  ghost predicate KeepsOrder(f: real -> real) {
    forall x, y :: f(x) <= f(y) <==> x <= y
  }

  ghost predicate KeepsMidpoints(f: real -> real) {
    forall x, y :: f((x + y) / 2.0) == (f(x) + f(y)) / 2.0
  }

  lemma {:induction false} InsertMapped(x: real, s: seq<real>, f: real -> real)
    requires KeepsOrder(f)
    ensures Insert(f(x), Mapped(s, f), AtMost) == Mapped(Insert(x, s, AtMost), f)
  {
    if s != [] {
      assert Mapped(s, f)[1..] == Mapped(s[1..], f);
      if !(x <= s[0]) {
        InsertMapped(x, s[1..], f);
      }
    }
  }

  lemma {:induction false} SortMapped(s: seq<real>, f: real -> real)
    requires KeepsOrder(f)
    ensures Sort(Mapped(s, f), AtMost) == Mapped(Sort(s, AtMost), f)
  {
    if s != [] {
      assert Mapped(s, f)[1..] == Mapped(s[1..], f);
      SortMapped(s[1..], f);
      InsertMapped(s[0], Sort(s[1..], AtMost), f);
    }
  }

  lemma MedianMapped(s: seq<real>, f: real -> real)
    requires s != [] && KeepsOrder(f) && KeepsMidpoints(f)
    ensures Median(Mapped(s, f)) == f(Median(s))
  {
    SortedReals(s);
    SortMapped(s, f);
    MiddleMapped(Sort(s, AtMost), f);
  }

  lemma MiddleMapped(t: seq<real>, f: real -> real)
    requires t != [] && KeepsMidpoints(f)
    ensures Middle(Mapped(t, f)) == f(Middle(t))
  {
    var k := |t| / 2;
    if |t| % 2 == 0 {
      assert f((t[k - 1] + t[k]) / 2.0) == (f(t[k - 1]) + f(t[k])) / 2.0;
    }
  }

  function Plus(b: real): real -> real { (x: real) => x + b }

  function Times(a: real): real -> real { (x: real) => a * x }

  lemma PlusKeeps(b: real)
    ensures KeepsOrder(Plus(b)) && KeepsMidpoints(Plus(b))
  {
  }

  lemma TimesKeeps(a: real)
    requires a > 0.0
    ensures KeepsOrder(Times(a)) && KeepsMidpoints(Times(a))
  {
    TimesKeepsOrder(a);
    forall x, y ensures Times(a)((x + y) / 2.0) == (Times(a)(x) + Times(a)(y)) / 2.0 {
      TimesMidpoint(a, x, y);
    }
  }

  lemma TimesKeepsOrder(a: real)
    requires a > 0.0
    ensures KeepsOrder(Times(a))
  {
    forall x, y ensures Times(a)(x) <= Times(a)(y) <==> x <= y {
      TimesOrder(a, x, y);
    }
  }

  lemma TimesOrder(a: real, x: real, y: real)
    requires a > 0.0
    ensures a * x <= a * y <==> x <= y
  {
    ScaledOrder(y, x, a);
  }

  lemma TimesMidpoint(a: real, x: real, y: real)
    ensures a * ((x + y) / 2.0) == (a * x + a * y) / 2.0
  {
  }

  // ---------------------------------------------------------------- shifts

  lemma DeviationsShift(r: seq<real>, s: seq<real>, m: real, b: real)
    requires |s| == |r| && forall i | 0 <= i < |r| :: s[i] == r[i] + b
    ensures Deviations(s, m + b) == Deviations(r, m)
  {
    forall i | 0 <= i < |r| ensures Deviations(s, m + b)[i] == Deviations(r, m)[i] {
      assert s[i] - (m + b) == r[i] - m;
    }
  }

  lemma ScoresAre(r: seq<real>, m: real, spread: real)
    requires r != [] && m == Median(r) && spread == Spread(r)
    ensures spread >= 0.0 && ComputeResidualZscores(r) == Scored(r, m, spread)
  {
    SpreadAtLeastMad(r);
  }

  lemma SpreadFrom(r: seq<real>, m: real, dev: seq<real>)
    requires r != [] && m == Median(r) && dev == Deviations(r, m)
    ensures Spread(r) == SpreadOf(dev)
  {
  }

  /** Scores do not see a constant added to every residual. */
  lemma ScoresIgnoreShift(r: seq<real>, b: real)
    ensures ComputeResidualZscores(Mapped(r, Plus(b))) == ComputeResidualZscores(r)
  {
    if r != [] {
      ShiftedScores(r, Mapped(r, Plus(b)), b);
    }
  }

  lemma ShiftedScores(r: seq<real>, s: seq<real>, b: real)
    requires r != [] && s == Mapped(r, Plus(b))
    ensures ComputeResidualZscores(s) == ComputeResidualZscores(r)
  {
    hide *;
    var m, spread := Median(r), Spread(r);
    PlusKeeps(b);
    MedianMapped(r, Plus(b));
    PlusIs(r, b);
    DeviationsShift(r, s, m, b);
    SpreadFrom(r, m, Deviations(r, m));
    SpreadFrom(s, m + b, Deviations(r, m));
    ScoresAre(r, m, spread);
    ScoresAre(s, m + b, spread);
    ScoredShift(r, s, m, spread, b);
  }

  lemma PlusIs(r: seq<real>, b: real)
    ensures forall x :: Plus(b)(x) == x + b
    ensures forall i | 0 <= i < |r| :: Mapped(r, Plus(b))[i] == r[i] + b
  {
  }

  lemma ScoredShift(r: seq<real>, s: seq<real>, m: real, spread: real, b: real)
    requires |s| == |r| && spread >= 0.0 && forall i | 0 <= i < |r| :: s[i] == r[i] + b
    ensures Scored(s, m + b, spread) == Scored(r, m, spread)
  {
    forall i | 0 <= i < |r| ensures Zscore(s[i], m + b, spread) == Zscore(r[i], m, spread) {
      assert s[i] - (m + b) == r[i] - m;
    }
  }

  // ---------------------------------------------------------------- reflection

  function Negated(s: seq<real>): (r: seq<real>)
    ensures |r| == |s| && forall i | 0 <= i < |s| :: r[i] == -s[i]
  {
    seq(|s|, i requires 0 <= i < |s| => -s[i])
  }

  /** The sample negated and read backwards. */
  function Mirrored(s: seq<real>): (r: seq<real>)
    ensures |r| == |s|
  {
    if s == [] then [] else Mirrored(s[1..]) + [-s[0]]
  }

  /** How often y occurs. */
  function Occurrences(s: seq<real>, y: real): nat {
    if s == [] then 0 else (if s[0] == y then 1 else 0) + Occurrences(s[1..], y)
  }

  lemma {:induction false} OccurrencesAre(s: seq<real>, y: real)
    ensures multiset(s)[y] == Occurrences(s, y)
  {
    if s != [] {
      OccurrencesAre(s[1..], y);
      assert s == [s[0]] + s[1..];
    }
  }

  lemma {:induction false} OccurrencesSnoc(s: seq<real>, x: real, y: real)
    ensures Occurrences(s + [x], y) == Occurrences(s, y) + (if x == y then 1 else 0)
  {
    if s == [] {
      assert s + [x] == [x] && [x][1..] == [];
    } else {
      OccurrencesSnoc(s[1..], x, y);
      assert (s + [x])[1..] == s[1..] + [x];
    }
  }

  lemma {:induction false} OccurrencesNegated(s: seq<real>, y: real)
    ensures Occurrences(Mirrored(s), y) == Occurrences(s, -y) == Occurrences(Negated(s), y)
  {
    if s != [] {
      OccurrencesNegated(s[1..], y);
      OccurrencesSnoc(Mirrored(s[1..]), -s[0], y);
      assert Negated(s)[1..] == Negated(s[1..]);
    }
  }

  lemma MirroredMembers(s: seq<real>, t: seq<real>)
    requires multiset(s) == multiset(t)
    ensures multiset(Mirrored(t)) == multiset(Negated(s))
  {
    forall y ensures multiset(Mirrored(t))[y] == multiset(Negated(s))[y] {
      OccurrencesAre(Mirrored(t), y);
      OccurrencesAre(Negated(s), y);
      OccurrencesNegated(t, y);
      OccurrencesNegated(s, y);
      OccurrencesAre(s, -y);
      OccurrencesAre(t, -y);
    }
  }

  lemma {:induction false} MirroredAt(s: seq<real>, k: nat)
    requires k < |s|
    ensures Mirrored(s)[k] == -s[|s| - 1 - k]
  {
    if k < |s| - 1 {
      MirroredAt(s[1..], k);
    }
  }

  lemma SortNegated(s: seq<real>)
    ensures Sort(Negated(s), AtMost) == Mirrored(Sort(s, AtMost))
  {
    var t, n := Sort(s, AtMost), Negated(s);
    SortProperties(s, AtMost);
    SortProperties(n, AtMost);
    SortedReals(s);
    MirroredMembers(s, t);
    forall i, j | 0 <= i < j < |t| ensures AtMost(Mirrored(t)[i], Mirrored(t)[j]) {
      MirroredAt(t, i);
      MirroredAt(t, j);
    }
    OrderedUnique(Sort(n, AtMost), Mirrored(t), AtMost);
  }

  lemma MedianNegated(s: seq<real>)
    requires s != []
    ensures Median(Negated(s)) == -Median(s)
  {
    SortedReals(s);
    SortNegated(s);
    MiddleMirrored(Sort(s, AtMost));
  }

  lemma MiddleMirrored(t: seq<real>)
    requires t != []
    ensures Middle(Mirrored(t)) == -Middle(t)
  {
    var k := |t| / 2;
    MirroredAt(t, k);
    if |t| % 2 == 0 {
      MirroredAt(t, k - 1);
    }
  }

  lemma NegatedQuotient(x: real, k: real)
    requires k > 0.0
    ensures (-x) / k == -(x / k)
  {
  }

  lemma NegatedScore(x: real, m: real, spread: real)
    requires spread >= 0.0
    ensures Zscore(-x, -m, spread) == -Zscore(x, m, spread)
  {
    NegatedQuotient(x - m, Scale(spread));
    assert -x - -m == -(x - m);
  }

  /** Scores are odd: negating every residual negates every score. */
  lemma ScoresReflect(r: seq<real>)
    ensures ComputeResidualZscores(Negated(r)) == Negated(ComputeResidualZscores(r))
  {
    if r != [] {
      NegatedScores(r);
    }
  }

  lemma NegatedScores(r: seq<real>)
    requires r != []
    ensures ComputeResidualZscores(Negated(r)) == Negated(ComputeResidualZscores(r))
  {
    hide *;
    var m, spread := Median(r), Spread(r);
    MedianNegated(r);
    DeviationsNegated(r, m);
    SpreadFrom(r, m, Deviations(r, m));
    SpreadFrom(Negated(r), -m, Deviations(r, m));
    ScoresAre(r, m, spread);
    ScoresAre(Negated(r), -m, spread);
    ScoredNegated(r, m, spread);
  }

  lemma DeviationsNegated(r: seq<real>, m: real)
    ensures Deviations(Negated(r), -m) == Deviations(r, m)
  {
    forall i | 0 <= i < |r| ensures Deviations(Negated(r), -m)[i] == Deviations(r, m)[i] {
      assert -r[i] - -m == -(r[i] - m);
    }
  }

  lemma ScoredNegated(r: seq<real>, m: real, spread: real)
    requires spread >= 0.0
    ensures Scored(Negated(r), -m, spread) == Negated(Scored(r, m, spread))
  {
    forall i | 0 <= i < |r| ensures Zscore(-r[i], -m, spread) == -Zscore(r[i], m, spread) {
      NegatedScore(r[i], m, spread);
    }
  }

  // ---------------------------------------------------------------- what a score says

  lemma ScoreTimesScale(x: real, m: real, spread: real)
    requires spread > 0.0
    ensures Zscore(x, m, spread) * Scale(spread) == x - m
  {
    QuotientTimes(x - m, Scale(spread));
  }

  /** The residual is its centre plus its score times the scale, sign included: nothing is lost by scoring. */
  lemma ScoresReconstruct(r: seq<real>, i: nat)
    requires i < |r|
    ensures Median(r) + ComputeResidualZscores(r)[i] * Scale(Spread(r)) == r[i]
  {
    hide *;
    var m, spread := Median(r), Spread(r);
    ScoresAre(r, m, spread);
    if spread == 0.0 {
      ZeroSpreadIsFlat(r);
    }
    ScoreRestores(r[i], m, spread);
  }

  lemma ScoreRestores(x: real, m: real, spread: real)
    requires spread >= 0.0 && (spread == 0.0 ==> x == m)
    ensures m + Zscore(x, m, spread) * Scale(spread) == x
  {
    if spread != 0.0 {
      ScoreTimesScale(x, m, spread);
    }
  }

  // ---------------------------------------------------------------- changes of unit

  /** The floor of a millionth is not in force. */
  predicate AboveFloor(spread: real) { 1.4826 * spread >= 0.000001 }

  lemma {:induction false} SumScaled(s: seq<real>, a: real)
    ensures Sum(Mapped(s, Times(a))) == a * Sum(s)
  {
    if s != [] {
      SumScaled(s[1..], a);
      assert Mapped(s, Times(a))[1..] == Mapped(s[1..], Times(a));
      assert a * (s[0] + Sum(s[1..])) == a * s[0] + a * Sum(s[1..]);
    }
  }

  lemma ScaledQuotient(a: real, x: real, k: real)
    requires k > 0.0
    ensures (a * x) / k == a * (x / k)
  {
    QuotientTimes(x, k);
    assert (a * (x / k)) * k == a * x;
    QuotientIs(a * x, k, a * (x / k));
  }

  lemma MeanScaled(s: seq<real>, a: real)
    requires s != []
    ensures Mean(Mapped(s, Times(a))) == a * Mean(s)
  {
    var n := |s| as real;
    SumScaled(s, a);
    ScaledQuotient(a, Sum(s), n);
    MeanIs(s, n);
    MeanIs(Mapped(s, Times(a)), n);
  }

  lemma MeanIs(s: seq<real>, n: real)
    requires s != [] && n == |s| as real
    ensures Mean(s) == Sum(s) / n
  {
  }

  lemma AbsScaled(a: real, x: real)
    requires a > 0.0
    ensures Abs(a * x) == a * Abs(x)
  {
    if x < 0.0 {
      ScaledOrder(x, 0.0, a);
    } else {
      MulMono(a, 0.0, x);
    }
  }

  lemma DeviationsAre(u: seq<real>, c: real, w: seq<real>)
    requires |u| == |w| && forall i | 0 <= i < |u| :: Abs(u[i] - c) == w[i]
    ensures Deviations(u, c) == w
  {
  }

  lemma DeviationsScaled(s: seq<real>, u: seq<real>, dev: seq<real>, w: seq<real>, a: real, centre: real)
    requires a > 0.0 && u == Mapped(s, Times(a)) && dev == Deviations(s, centre) && w == Mapped(dev, Times(a))
    ensures Deviations(u, a * centre) == w
  {
    var c := a * centre;
    hide *;
    forall i | 0 <= i < |s| ensures Abs(u[i] - c) == w[i] {
      DeviationScaledIs(s[i], u[i], dev[i], w[i], a, centre, c);
    }
    DeviationsAre(u, c, w);
  }

  lemma DeviationScaledIs(x: real, y: real, d: real, v: real, a: real, centre: real, c: real)
    requires a > 0.0 && y == Times(a)(x) && d == Abs(x - centre) && v == Times(a)(d) && c == a * centre
    ensures Abs(y - c) == v
  {
    DeviationScaled(x, a, centre);
  }

  lemma DeviationScaled(x: real, a: real, centre: real)
    requires a > 0.0
    ensures Abs(a * x - a * centre) == a * Abs(x - centre)
  {
    AbsScaled(a, x - centre);
    assert a * (x - centre) == a * x - a * centre;
  }

  lemma MedianScaled(s: seq<real>, a: real)
    requires s != [] && a > 0.0
    ensures Median(Mapped(s, Times(a))) == a * Median(s)
  {
    TimesKeeps(a);
    MedianMapped(s, Times(a));
  }

  lemma SpreadScaled(s: seq<real>, u: seq<real>, a: real, m: real)
    requires s != [] && a > 0.0 && m == Median(s) && u == Mapped(s, Times(a)) && Median(u) == a * m
    ensures Spread(u) == a * Spread(s)
  {
    hide *;
    var dev := Deviations(s, m);
    var w := Mapped(dev, Times(a));
    DeviationsScaled(s, u, dev, w, a, m);
    SpreadFrom(s, m, dev);
    SpreadFrom(u, a * m, w);
    SpreadOfScaled(dev, a);
  }

  lemma PickScaled(a: real, median: real, mean: real, m: real, n: real, spread: real, s: real)
    requires a > 0.0 && m == a * median && n == a * mean
    requires spread == if median == 0.0 then mean else median
    requires s == if m == 0.0 then n else m
    ensures s == a * spread
  {
    ScaledZero(a, median);
  }

  lemma SpreadOfScaled(dev: seq<real>, a: real)
    requires dev != [] && a > 0.0
    ensures SpreadOf(Mapped(dev, Times(a))) == a * SpreadOf(dev)
  {
    var w := Mapped(dev, Times(a));
    MedianScaled(dev, a);
    MeanScaled(dev, a);
    hide Median, Mean, Mapped, Times;
    PickScaled(a, Median(dev), Mean(dev), Median(w), Mean(w), SpreadOf(dev), SpreadOf(w));
  }

  lemma ScaledZero(a: real, x: real)
    requires a > 0.0
    ensures a * x == 0.0 <==> x == 0.0
  {
  }

  lemma ScaleScaled(spread: real, a: real)
    requires a > 0.0 && spread > 0.0
    ensures Scale(a * spread) == a * Scale(spread) <==> a == 1.0 || (AboveFloor(spread) && AboveFloor(a * spread))
  {
    var c := CONSISTENCY * spread;
    assert CONSISTENCY * (a * spread) == a * c;
    ScaledOrder(c, SCALE_FLOOR, a);
  }

  /** A score is the same in both units where the scale follows the unit, and only there unless it is zero. */
  lemma ScaledScore(x: real, m: real, spread: real, a: real)
    requires a > 0.0 && spread > 0.0 && a * spread > 0.0
    ensures Zscore(a * x, a * m, a * spread) == Zscore(x, m, spread) <==>
            x == m || Scale(a * spread) == a * Scale(spread)
  {
    ScoreTimesScale(x, m, spread);
    ScoreTimesScale(a * x, a * m, a * spread);
    assert a * x - a * m == a * (x - m);
    SameQuotient(x - m, Zscore(x, m, spread), Zscore(a * x, a * m, a * spread), Scale(spread), Scale(a * spread), a);
  }

  lemma SameQuotient(d: real, z: real, y: real, k: real, l: real, a: real)
    requires k > 0.0 && l > 0.0 && a > 0.0 && z * k == d && y * l == a * d
    ensures y == z <==> d == 0.0 || l == a * k
  {
    assert z * (a * k) == a * d;
    assert y == z ==> z * (l - a * k) == 0.0;
    assert l == a * k ==> (y - z) * l == 0.0;
    NoZeroDivisors(z, l - a * k);
    NoZeroDivisors(y - z, l);
    NoZeroDivisors(z, k);
    NoZeroDivisors(y, l);
  }

  lemma NoZeroDivisors(x: real, y: real)
    ensures x * y == 0.0 <==> x == 0.0 || y == 0.0
  {
  }

  /** Changing the unit leaves all scores as they were exactly where the floor is in force in neither unit. */
  lemma ScoresIgnoreUnitExactly(r: seq<real>, a: real)
    requires r != [] && a > 0.0
    ensures var u := Mapped(r, Times(a));
            ComputeResidualZscores(u) == ComputeResidualZscores(r) <==>
            Flat(r) || a == 1.0 || (AboveFloor(Spread(r)) && AboveFloor(Spread(u)))
  {
    ScoresInUnit(r, Mapped(r, Times(a)), a);
  }

  lemma ScoresInUnit(r: seq<real>, u: seq<real>, a: real)
    requires r != [] && a > 0.0 && u == Mapped(r, Times(a))
    ensures ComputeResidualZscores(u) == ComputeResidualZscores(r) <==>
            Flat(r) || a == 1.0 || (AboveFloor(Spread(r)) && AboveFloor(Spread(u)))
  {
    hide *;
    MedianScaled(r, a);
    SpreadScaled(r, u, a, Median(r));
    UnitFrom(r, u, Median(r), Median(u), Spread(r), Spread(u), a);
  }

  lemma UnitFrom(r: seq<real>, u: seq<real>, m: real, n: real, s: real, v: real, a: real)
    requires r != [] && a > 0.0 && u == Mapped(r, Times(a))
    requires m == Median(r) && s == Spread(r) && n == Median(u) && v == Spread(u) && n == a * m && v == a * s
    ensures ComputeResidualZscores(u) == ComputeResidualZscores(r) <==>
            Flat(r) || a == 1.0 || (AboveFloor(s) && AboveFloor(v))
  {
    ScoresAre(r, m, s);
    ScoresAre(u, n, v);
    UnitByScale(r, u, m, n, s, v, a);
  }

  lemma MappedTimes(r: seq<real>, a: real)
    ensures forall j | 0 <= j < |r| :: Mapped(r, Times(a))[j] == a * r[j]
  {
  }

  lemma UnitByScale(r: seq<real>, u: seq<real>, m: real, n: real, s: real, v: real, a: real)
    requires r != [] && a > 0.0 && m == Median(r) && s == Spread(r) && s >= 0.0 && v >= 0.0
    requires u == Mapped(r, Times(a)) && n == a * m && v == a * s
    ensures Scored(u, n, v) == Scored(r, m, s) <==> Flat(r) || a == 1.0 || (AboveFloor(s) && AboveFloor(v))
  {
    hide *;
    if s == 0.0 {
      ZeroScored(r, u, m, n);
      ZeroSpreadIsFlat(r);
      FlatFrom(r, m);
      ScaledZero(a, s);
    } else {
      var i := NotFlatAt(r);
      ScaledOrder(0.0, s, a);
      ScaleScaled(s, a);
      MappedTimes(r, a);
      ScoredScaled(r, u, m, n, s, v, a, i);
    }
  }

  lemma ZeroScored(r: seq<real>, u: seq<real>, m: real, n: real)
    requires |u| == |r|
    ensures Scored(u, n, 0.0) == Scored(r, m, 0.0)
  {
  }

  lemma FlatFrom(r: seq<real>, m: real)
    requires forall i | 0 <= i < |r| :: r[i] == m
    ensures Flat(r)
  {
  }

  lemma ScaledScoreIs(x: real, y: real, m: real, n: real, s: real, v: real, a: real)
    requires a > 0.0 && s > 0.0 && v > 0.0 && y == a * x && n == a * m && v == a * s
    ensures Zscore(y, n, v) == Zscore(x, m, s) <==> x == m || Scale(v) == a * Scale(s)
  {
    ScaledScore(x, m, s, a);
  }

  lemma ScoredScaled(r: seq<real>, u: seq<real>, m: real, n: real, s: real, v: real, a: real, i: nat)
    requires a > 0.0 && s > 0.0 && v > 0.0 && i < |r| && r[i] != m && n == a * m && v == a * s
    requires |u| == |r| && forall j | 0 <= j < |r| :: u[j] == a * r[j]
    ensures Scored(u, n, v) == Scored(r, m, s) <==> Scale(v) == a * Scale(s)
  {
    hide *;
    var after, before := Scored(u, n, v), Scored(r, m, s);
    forall j | 0 <= j < |r| ensures after[j] == before[j] <==> r[j] == m || Scale(v) == a * Scale(s) {
      ScaledScoreIs(r[j], u[j], m, n, s, v, a);
    }
    assert after == before ==> after[i] == before[i];
  }

  lemma {:induction false} ZerosSum(s: seq<real>)
    requires forall i | 0 <= i < |s| :: s[i] == 0.0
    ensures Sum(s) == 0.0
  {
    if s != [] {
      ZerosSum(s[1..]);
    }
  }

  lemma FlatSpread(r: seq<real>)
    requires r != [] && forall k | 0 <= k < |r| :: r[k] == Median(r)
    ensures Spread(r) == 0.0
  {
    var m := Median(r);
    var dev := Deviations(r, m);
    assert forall k | 0 <= k < |r| :: dev[k] == 0.0;
    SpreadFrom(r, m, dev);
    ZeroDeviations(dev);
  }

  lemma ZeroDeviations(dev: seq<real>)
    requires dev != [] && forall k | 0 <= k < |dev| :: dev[k] == 0.0
    ensures SpreadOf(dev) == 0.0
  {
    var n := |dev| as real;
    ZerosSum(dev);
    MeanIs(dev, n);
    QuotientIs(0.0, n, 0.0);
    AllNear(dev, 0.0);
    MajorityHoldsMedian(dev, 0.0, 0.0);
  }

  lemma NotFlatAt(r: seq<real>) returns (i: nat)
    requires r != [] && Spread(r) > 0.0
    ensures i < |r| && r[i] != Median(r) && !Flat(r)
  {
    if forall k | 0 <= k < |r| :: r[k] == Median(r) {
      FlatSpread(r);
    }
    i :| 0 <= i < |r| && r[i] != Median(r);
    if Flat(r) {
      assert forall k | 0 <= k < |r| :: r[k] == r[0];
      AllNear(r, r[0]);
      MajorityHoldsMedian(r, r[0], 0.0);
    }
  }

  // ---------------------------------------------------------------- a worked cohort

  lemma SortedStays(s: seq<real>)
    requires Ordered(s, AtMost)
    ensures Sort(s, AtMost) == s
  {
    SortProperties(s, AtMost);
    OrderedUnique(Sort(s, AtMost), s, AtMost);
  }

  lemma EvenMedian(s: seq<real>)
    requires Ordered(s, AtMost) && |s| == 6
    ensures Median(s) == (s[2] + s[3]) / 2.0
  {
    SortedStays(s);
  }

  lemma SpreadIsMad(r: seq<real>, m: real, dev: seq<real>)
    requires r != [] && m == Median(r) && dev == Deviations(r, m) && Median(dev) != 0.0
    ensures Spread(r) == Median(dev)
  {
  }

  lemma EvenCohortScale(r: seq<real>, dev: seq<real>)
    requires r == [0.0, 0.0, 0.0, 2.0, 2.0, 6.0] && dev == [1.0, 1.0, 1.0, 1.0, 1.0, 5.0]
    ensures Median(r) == 1.0 && Spread(r) == 1.0
  {
    assert Ordered(r, AtMost) && Ordered(dev, AtMost);
    DeviationsAre(r, 1.0, dev);
    hide *;
    EvenMedian(r);
    EvenMedian(dev);
    SpreadIsMad(r, 1.0, dev);
  }

  /** Six residuals at the default threshold: their centre is 1, and only the 6 is flagged. */
  lemma EvenCohort(i: nat)
    requires i < 6
    ensures FlagAnomalies(ComputeResidualZscores([0.0, 0.0, 0.0, 2.0, 2.0, 6.0]), 3.0)[i] <==> i == 5
  {
    var r := [0.0, 0.0, 0.0, 2.0, 2.0, 6.0];
    assert Scale(1.0) == 1.4826;
    assert Abs(r[i] - 1.0) > 3.0 * 1.4826 <==> i == 5;
    hide *;
    EvenCohortScale(r, [1.0, 1.0, 1.0, 1.0, 1.0, 5.0]);
    FlaggedFrom(r, 1.0, 1.0, 3.0, i);
  }

  lemma FlaggedFrom(r: seq<real>, m: real, spread: real, t: real, i: nat)
    requires i < |r| && m == Median(r) && spread == Spread(r) && spread != 0.0
    ensures FlagAnomalies(ComputeResidualZscores(r), t)[i] <==> Abs(r[i] - m) > t * Scale(spread)
  {
    hide Median, Spread, ComputeResidualZscores;
    ScoresAre(r, m, spread);
    FlaggedIff(r[i], m, spread, t);
  }
}
