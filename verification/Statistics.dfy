/** Sums, means and squared deviations over finite samples. */
module Statistics {

  function Abs(x: real): (r: real)
    ensures r >= 0.0 && (r == x || r == -x)
  {
    if x < 0.0 then -x else x
  }

  function Sum(s: seq<real>): real {
    if s == [] then 0.0 else s[0] + Sum(s[1..])
  }

  function Mean(s: seq<real>): real
    requires s != []
  {
    Sum(s) / |s| as real
  }

  function SumSquares(d: seq<real>): real {
    if d == [] then 0.0 else d[0] * d[0] + SumSquares(d[1..])
  }

  function Centered(s: seq<real>, centre: real): (d: seq<real>)
    ensures |d| == |s|
    ensures forall i | 0 <= i < |s| :: d[i] == s[i] - centre
  {
    if s == [] then [] else [s[0] - centre] + Centered(s[1..], centre)
  }

  lemma {:induction false} SumNonNegative(s: seq<real>)
    requires forall i | 0 <= i < |s| :: s[i] >= 0.0
    ensures Sum(s) >= 0.0
  {
    if s != [] {
      SumNonNegative(s[1..]);
    }
  }

  lemma {:induction false} SumAppend(a: seq<real>, b: seq<real>)
    ensures Sum(a + b) == Sum(a) + Sum(b)
    ensures SumSquares(a + b) == SumSquares(a) + SumSquares(b)
  {
    if a == [] {
      assert a + b == b;
    } else {
      SumAppend(a[1..], b);
      assert (a + b)[1..] == a[1..] + b;
    }
  }

  lemma SingletonSums(x: real)
    ensures Sum([x]) == x && SumSquares([x]) == x * x
  {
    assert [x][1..] == [];
  }

  lemma QuotientTimes(x: real, k: real)
    requires k != 0.0
    ensures (x / k) * k == x
  {
  }

  lemma QuotientIs(x: real, k: real, r: real)
    requires k > 0.0 && x == r * k
    ensures x / k == r
  {
    QuotientTimes(x, k);
    ScaledOrder(x / k, r, k);
    ScaledOrder(r, x / k, k);
  }

  lemma QuotientBound(x: real, k: real, r: real)
    requires k > 0.0 && x / k <= r
    ensures x <= k * r
  {
    QuotientTimes(x, k);
    ScaledOrder(r, x / k, k);
  }

  lemma {:induction false} SumCentered(s: seq<real>, centre: real)
    ensures Sum(Centered(s, centre)) == Sum(s) - |s| as real * centre
  {
    if s != [] {
      SumCentered(s[1..], centre);
      assert Centered(s, centre)[1..] == Centered(s[1..], centre);
    }
  }

  /** Deviations from the mean cancel out. */
  lemma DeviationsCancel(s: seq<real>)
    requires s != []
    ensures Sum(Centered(s, Mean(s))) == 0.0
  {
    SumCentered(s, Mean(s));
  }

  lemma {:induction false} SumSquaresNonNegative(d: seq<real>)
    ensures SumSquares(d) >= 0.0
  {
    if d != [] {
      SumSquaresNonNegative(d[1..]);
    }
  }

  /** One element's square, and any two elements' squares, are part of the total. */
  lemma {:induction false} SquareIsPart(d: seq<real>, i: nat)
    requires i < |d|
    ensures d[i] * d[i] <= SumSquares(d)
  {
    SumSquaresNonNegative(d[1..]);
    if i > 0 {
      SquareIsPart(d[1..], i - 1);
    }
  }

  lemma {:induction false} TwoSquaresArePart(d: seq<real>, i: nat, j: nat)
    requires i < j < |d|
    ensures d[i] * d[i] + d[j] * d[j] <= SumSquares(d)
  {
    if i > 0 {
      TwoSquaresArePart(d[1..], i - 1, j - 1);
    } else {
      SquareIsPart(d[1..], j - 1);
    }
  }

  lemma SquareNonNegative(x: real)
    ensures x * x >= 0.0
  {
  }

  lemma ScaledOrder(x: real, y: real, k: real)
    requires k > 0.0
    ensures x < y <==> x * k < y * k
  {
    if x < y {
      assert (y - x) * k > 0.0;
    } else {
      assert (x - y) * k >= 0.0;
    }
  }

  lemma CauchyStep(n: real, a: real, q: real, b: real)
    requires n >= 1.0 && a * a <= n * q
    ensures (b + a) * (b + a) <= (n + 1.0) * (b * b + q)
  {
    var gap := q + n * (b * b) - 2.0 * (a * b);
    assert n * gap == n * q + (n * b) * (n * b) - 2.0 * (a * (n * b));
    assert (a - n * b) * (a - n * b) == a * a - 2.0 * (a * (n * b)) + (n * b) * (n * b);
    SquareNonNegative(a - n * b);
    assert gap * n >= 0.0 * n;
    ScaledOrder(gap, 0.0, n);
    assert (n + 1.0) * (b * b + q) - (b + a) * (b + a) == gap + (n * q - a * a);
  }

  /** The Cauchy inequality for a sum of n numbers. */
  lemma {:induction false} SumSquared(d: seq<real>)
    ensures Sum(d) * Sum(d) <= |d| as real * SumSquares(d)
  {
    if |d| > 1 {
      SumSquared(d[1..]);
      CauchyStep(|d[1..]| as real, Sum(d[1..]), SumSquares(d[1..]), d[0]);
    } else if |d| == 1 {
      assert d[1..] == [];
    }
  }

  lemma ProductPositive(x: real, y: real, e: real)
    requires x > 0.0 && y > 0.0 && e == x * y
    ensures e > 0.0
  {
  }

  /** A square is as large as some positive number unless it is the square of zero. */
  lemma SquarePositive(x: real) returns (e: real)
    requires x != 0.0
    ensures e > 0.0 && x * x >= e
  {
    e := x * x;
    if x > 0.0 {
      ProductPositive(x, x, e);
    } else {
      ProductPositive(-x, -x, e);
    }
  }

  lemma ZeroSquare(x: real, bound: real)
    requires x * x <= bound && bound <= 0.0
    ensures x == 0.0
  {
    if x != 0.0 {
      var e := SquarePositive(x);
    }
  }
}
