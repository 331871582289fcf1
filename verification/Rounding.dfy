/** Python's round(x, 2) and round(x, 1): to the nearest grid point, ties to the even one. */
module Rounding {

  function HalfEven(y: real): int {
    var f := y.Floor;
    var d := y - f as real;
    if d < 0.5 then f
    else if d > 0.5 then f + 1
    else if f % 2 == 0 then f
    else f + 1
  }

  lemma HalfEvenMonotone(x: real, y: real)
    requires x <= y
    ensures HalfEven(x) <= HalfEven(y)
  {
    assert x.Floor <= y.Floor;
  }

  function Hundredths(n: int): real { n as real / 100.0 }

  function Round2(x: real): real {
    Hundredths(HalfEven(x * 100.0))
  }

  function Round1(x: real): real {
    HalfEven(x * 10.0) as real / 10.0
  }

  lemma Round2Near(x: real)
    ensures -0.005 <= Round2(x) - x <= 0.005
  {
  }

  lemma Round1Near(x: real)
    ensures -0.05 <= Round1(x) - x <= 0.05
  {
  }

  lemma Round2Monotone(x: real, y: real)
    requires x <= y
    ensures Round2(x) <= Round2(y)
  {
    HalfEvenMonotone(x * 100.0, y * 100.0);
  }

  lemma Round2Sign(x: real)
    requires x >= 0.0
    ensures Round2(x) >= 0.0
  {
    HalfEvenMonotone(0.0, x * 100.0);
  }

  /** Which unrounded values still round into a range: half a unit is granted at zero and at a hundred. */
  lemma Round2NonNegativeExactly(x: real)
    ensures Round2(x) >= 0.0 <==> x >= -0.005
  {
  }

  lemma Round2AtMostHundredExactly(x: real)
    ensures Round2(x) <= 100.0 <==> x <= 100.005
  {
  }

  lemma Round1NonNegativeExactly(x: real)
    ensures Round1(x) >= 0.0 <==> x >= -0.05
  {
  }

  /** Hundredths are fixed points, so rounding twice changes nothing. */
  lemma Round2Fixed(n: int)
    ensures Round2(Hundredths(n)) == Hundredths(n)
  {
    assert Hundredths(n) * 100.0 == n as real;
  }

  lemma Round2Between(x: real, lo: int, hi: int)
    requires Hundredths(lo) <= x <= Hundredths(hi)
    ensures Hundredths(lo) <= Round2(x) <= Hundredths(hi)
  {
    Round2Fixed(lo);
    Round2Fixed(hi);
    Round2Monotone(Hundredths(lo), x);
    Round2Monotone(x, Hundredths(hi));
  }

  /** Rounding keeps every value of a range inside the range exactly when it keeps both ends inside. */
  lemma RangeSurvivesRounding(lo: real, hi: real)
    requires lo <= hi
    ensures (forall x: real | lo <= x <= hi :: lo <= Round2(x) <= hi) <==> (lo <= Round2(lo) && Round2(hi) <= hi)
  {
    if lo <= Round2(lo) && Round2(hi) <= hi {
      forall x: real | lo <= x <= hi ensures lo <= Round2(x) <= hi {
        Round2Monotone(lo, x);
        Round2Monotone(x, hi);
      }
    }
  }
}
