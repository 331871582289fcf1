/** Physical-plausibility bounds, and how far rounding can push a truthful scenario against them. */
module Bounds {
  import opened OptimizationModels
  import opened Rounding
  import opened Statistics

  datatype Violation =
    | ConsumptionIncrease | EmissionsIncrease | PctInconsistent | PctOutOfRange | PaybackImplausible

  /** The reduction implied by two energy figures, in percent. */
  function ImpliedPct(baseline: real, optimized: real): real
    requires baseline > 0.0
  {
    (baseline - optimized) / baseline * 100.0
  }

  predicate PctConsistent(baseline: real, optimized: real, pct: real) {
    baseline > 0.0 ==> Abs(ImpliedPct(baseline, optimized) - pct) <= 1.0
  }

  predicate Violates(s: Scenario, settings: Settings, v: Violation) {
    match v
    case ConsumptionIncrease => s.optimizedKwh > s.baselineKwh
    case EmissionsIncrease => s.optimizedEmissions > s.baselineEmissions
    case PctInconsistent => !PctConsistent(s.baselineKwh, s.optimizedKwh, s.pctReduction)
    case PctOutOfRange => !(settings.minPlausiblePct <= s.pctReduction <= settings.maxPlausiblePct)
    case PaybackImplausible => s.paybackMonths > settings.maxPlausiblePayback
  }

  /** The order the checks run in; the first violation names the incident. */
  function CheckOrder(v: Violation): nat {
    match v
    case ConsumptionIncrease => 0
    case EmissionsIncrease => 1
    case PctInconsistent => 2
    case PctOutOfRange => 3
    case PaybackImplausible => 4
  }

  ghost predicate AreViolations(vs: seq<Violation>, s: Scenario, settings: Settings) {
    && (forall v :: v in vs <==> Violates(s, settings, v))
    && (forall i, j | 0 <= i < j < |vs| :: CheckOrder(vs[i]) < CheckOrder(vs[j]))
  }

  /** Every violation found, each once, in check order; the scenario itself is never changed. */
  method ValidateScenario(s: Scenario, settings: Settings) returns (violations: seq<Violation>)
    ensures AreViolations(violations, s, settings)
  {
    var inconsistent := PctCheckFails(s);
    violations := Collect(
      s.optimizedKwh > s.baselineKwh,
      s.optimizedEmissions > s.baselineEmissions,
      inconsistent,
      !(settings.minPlausiblePct <= s.pctReduction <= settings.maxPlausiblePct),
      s.paybackMonths > settings.maxPlausiblePayback);
  }

  /** The list the failed checks build up, one append per check. */
  method Collect(consumption: bool, emissions: bool, inconsistent: bool, outOfRange: bool, payback: bool)
    returns (vs: seq<Violation>)
    ensures forall v :: v in vs <==> match v
                                     case ConsumptionIncrease => consumption
                                     case EmissionsIncrease => emissions
                                     case PctInconsistent => inconsistent
                                     case PctOutOfRange => outOfRange
                                     case PaybackImplausible => payback
    ensures forall i, j | 0 <= i < j < |vs| :: CheckOrder(vs[i]) < CheckOrder(vs[j])
  {
    vs := [];
    if consumption {
      vs := vs + [ConsumptionIncrease];
    }
    if emissions {
      vs := vs + [EmissionsIncrease];
    }
    if inconsistent {
      vs := vs + [PctInconsistent];
    }
    if outOfRange {
      vs := vs + [PctOutOfRange];
    }
    if payback {
      vs := vs + [PaybackImplausible];
    }
  }

  method PctCheckFails(s: Scenario) returns (fails: bool)
    ensures fails == !PctConsistent(s.baselineKwh, s.optimizedKwh, s.pctReduction)
  {
    fails := false;
    if s.baselineKwh > 0.0 {
      var impliedPct := (s.baselineKwh - s.optimizedKwh) / s.baselineKwh * 100.0;
      fails := Abs(impliedPct - s.pctReduction) > 1.0;
    }
  }

  /** The check the service relies on. */
  ghost predicate Passes(s: Scenario, settings: Settings) {
    forall v :: !Violates(s, settings, v)
  }

  // ---------------------------------------------------------------- rounding against the 1.0 tolerance

  /** Rounding both energies moves the kept share by at most a hundredth over the rounded baseline. */
  lemma ShareDeviation(b: real, o: real, rb: real, ro: real)
    requires 0.0 <= o <= b && 0.0 < b && 0.0 < rb
    requires -0.005 <= b - rb <= 0.005 && -0.005 <= o - ro <= 0.005
    ensures -0.01 <= (o / b - ro / rb) * rb <= 0.01
  {
    var q := o / b;
    QuotientTimes(o, b);
    QuotientTimes(ro, rb);
    ShareInUnit(o, b);
    SmallTimesShare(q, rb - b);
    assert q * rb == q * b + q * (rb - b);
    assert (q - ro / rb) * rb == q * rb - ro / rb * rb;
  }

  lemma ShareInUnit(o: real, b: real)
    requires 0.0 <= o <= b && 0.0 < b
    ensures 0.0 <= o / b <= 1.0
  {
  }

  lemma ShareOf(q: real, e: real)
    requires 0.0 <= q <= 1.0 && 0.0 <= e
    ensures 0.0 <= q * e <= e
  {
    assert (1.0 - q) * e == e - q * e;
    assert (1.0 - q) * e >= 0.0;
  }

  lemma SmallTimesShare(q: real, e: real)
    requires 0.0 <= q <= 1.0 && -0.005 <= e <= 0.005
    ensures -0.005 <= q * e <= 0.005
  {
    if e >= 0.0 {
      ShareOf(q, e);
    } else {
      ShareOf(q, -e);
      assert q * -e == -(q * e);
    }
  }

  lemma DeviationOverBaseline(d: real, rb: real)
    requires rb >= 1.01 && -0.01 <= d * rb <= 0.01
    ensures -0.00991 <= d <= 0.00991
  {
  }

  lemma PctOfShare(b: real, o: real)
    requires b > 0.0
    ensures ImpliedPct(b, o) == 100.0 - o / b * 100.0
  {
    QuotientTimes(o, b);
    QuotientIs(b - o, b, 1.0 - o / b);
  }

  /** A truthful scenario: real energies, and the percentage computed from them before anything is rounded. */
  ghost predicate Truthful(b: real, o: real, pct: real) {
    0.0 <= o <= b && 0.0 < b && pct == ImpliedPct(b, o)
  }

  /** From a rounded baseline of 1.01 kWh on, the two roundings together stay within the tolerance. */
  lemma ConsistentFromOneOhOne(b: real, o: real, pct: real)
    requires Truthful(b, o, pct) && Round2(b) >= 1.01
    ensures PctConsistent(Round2(b), Round2(o), Round2(pct))
  {
    var rb, ro := Round2(b), Round2(o);
    Round2Near(b);
    Round2Near(o);
    Round2Near(pct);
    var implied := ImpliedPct(rb, ro);
    DeviationOfPct(b, o, rb, ro);
    assert -0.991 <= implied - pct <= 0.991;
  }

  lemma DeviationOfPct(b: real, o: real, rb: real, ro: real)
    requires 0.0 <= o <= b && 0.0 < b && rb >= 1.01
    requires -0.005 <= b - rb <= 0.005 && -0.005 <= o - ro <= 0.005
    ensures -0.991 <= ImpliedPct(rb, ro) - ImpliedPct(b, o) <= 0.991
  {
    PctOfShare(b, o);
    PctOfShare(rb, ro);
    ShareDeviation(b, o, rb, ro);
    DeviationOverBaseline(o / b - ro / rb, rb);
  }

  /** At exactly 1.00 kWh the implied percentage is whole, and rounding cannot cross a whole number. */
  lemma ConsistentAtOne(b: real, o: real, pct: real)
    requires Truthful(b, o, pct) && Round2(b) == 1.0
    ensures PctConsistent(Round2(b), Round2(o), Round2(pct))
  {
    var m := HalfEven(o * 100.0);
    var n := 100 - m;
    Round2Near(b);
    Round2Near(o);
    PctOfShare(b, o);
    ShareDeviation(b, o, 1.0, Hundredths(m));
    assert ImpliedPct(1.0, Hundredths(m)) == n as real;
    assert Hundredths(m) / 1.0 == Hundredths(m);
    assert (n - 1) as real <= pct <= (n + 1) as real;
    Round2Between(pct, 100 * (n - 1), 100 * (n + 1));
  }

  /** Below 1.00 kWh: two energies a hair apart round to neighbouring hundredths, and the rounded percentage is 0. */
  lemma InconsistentBelowOne(k: int) returns (b: real, o: real, pct: real)
    requires 1 <= k <= 99
    ensures Truthful(b, o, pct) && Round2(b) == Hundredths(k)
    ensures !PctConsistent(Round2(b), Round2(o), Round2(pct))
  {
    b := Hundredths(k) - 0.005 + 0.0000001;
    o := Hundredths(k) - 0.005 - 0.0000001;
    pct := ImpliedPct(b, o);
    assert b >= 0.005 && b - o == 0.0000002;
    TinyReduction(b, 0.0000002);
    assert HalfEven(b * 100.0) == k && HalfEven(o * 100.0) == k - 1;
    assert HalfEven(pct * 100.0) == 0;
    OneHundredthStep(k);
  }

  lemma TinyReduction(b: real, gap: real)
    requires b >= 0.005 && gap == 0.0000002
    ensures 0.0 <= gap / b * 100.0 <= 0.0041
  {
    QuotientTimes(gap, b);
    ScaledOrder(gap / b, 0.00004, b);
  }

  lemma OneHundredthStep(k: int)
    requires 1 <= k <= 99
    ensures ImpliedPct(Hundredths(k), Hundredths(k - 1)) > 1.0
  {
    QuotientIs(0.01, Hundredths(k), 1.0 / k as real);
    assert Hundredths(k) - Hundredths(k - 1) == 0.01;
  }

  /**
   * The consistency check accepts every truthful scenario whose baseline rounds to k hundredths
   * exactly when k is 0 (the check is skipped) or the rounded baseline is at least 1.00 kWh.
   */
  lemma ConsistencyExactly(k: int)
    requires k >= 0
    ensures (forall b, o, pct | Truthful(b, o, pct) && Round2(b) == Hundredths(k) ::
               PctConsistent(Round2(b), Round2(o), Round2(pct)))
            <==> (k == 0 || k >= 100)
  {
    if 1 <= k < 100 {
      var b, o, pct := InconsistentBelowOne(k);
    } else {
      forall b, o, pct | Truthful(b, o, pct) && Round2(b) == Hundredths(k)
        ensures PctConsistent(Round2(b), Round2(o), Round2(pct))
      {
        if k > 100 {
          ConsistentFromOneOhOne(b, o, pct);
        } else if k == 100 {
          ConsistentAtOne(b, o, pct);
        }
      }
    }
  }

  lemma TruthfulPct(b: real, o: real, pct: real)
    requires Truthful(b, o, pct)
    ensures 0.0 <= pct <= 100.0
  {
    PctOfShare(b, o);
    ShareInUnit(o, b);
  }

  /** The consistency check passes every truthful scenario whose baseline rounds to 0 or to at least 1 kWh. */
  lemma TruthfulConsistent(b: real, o: real, pct: real)
    requires Truthful(b, o, pct) && (Round2(b) == 0.0 || Round2(b) >= 1.0)
    ensures PctConsistent(Round2(b), Round2(o), Round2(pct))
  {
    var k := HalfEven(b * 100.0);
    ConsistencyExactly(k);
    assert k == 0 || k >= 100;
  }

  lemma ShareOfMore(o: real, b: real, k: real)
    requires o <= b && k >= 0.0
    ensures o * k <= b * k
  {
    if k > 0.0 {
      ScaledOrder(b, o, k);
    }
  }

  /** Passing, read off the five checks. */
  lemma PassesByParts(s: Scenario, settings: Settings)
    ensures Passes(s, settings) <==>
            && s.optimizedKwh <= s.baselineKwh
            && s.optimizedEmissions <= s.baselineEmissions
            && PctConsistent(s.baselineKwh, s.optimizedKwh, s.pctReduction)
            && settings.minPlausiblePct <= s.pctReduction <= settings.maxPlausiblePct
            && s.paybackMonths <= settings.maxPlausiblePayback
  {
    assert Passes(s, settings) ==>
        && !Violates(s, settings, ConsumptionIncrease)
        && !Violates(s, settings, EmissionsIncrease)
        && !Violates(s, settings, PctInconsistent)
        && !Violates(s, settings, PctOutOfRange)
        && !Violates(s, settings, PaybackImplausible);
  }

  // ---------------------------------------------------------------- which violation names the incident

  /** The first violation of a rejected scenario, check by check. */
  lemma FirstViolationMeans(vs: seq<Violation>, s: Scenario, settings: Settings)
    requires AreViolations(vs, s, settings) && vs != []
    ensures vs[0] == if s.optimizedKwh > s.baselineKwh then ConsumptionIncrease
                     else if s.optimizedEmissions > s.baselineEmissions then EmissionsIncrease
                     else if !PctConsistent(s.baselineKwh, s.optimizedKwh, s.pctReduction) then PctInconsistent
                     else if s.pctReduction < settings.minPlausiblePct || s.pctReduction > settings.maxPlausiblePct
                     then PctOutOfRange
                     else PaybackImplausible
  {
    assert vs[0] in vs;
    forall v | v in vs ensures CheckOrder(vs[0]) <= CheckOrder(v) {
      var i :| 0 <= i < |vs| && vs[i] == v;
    }
    assert Violates(s, settings, ConsumptionIncrease) ==> ConsumptionIncrease in vs;
    assert Violates(s, settings, EmissionsIncrease) ==> EmissionsIncrease in vs;
    assert Violates(s, settings, PctInconsistent) ==> PctInconsistent in vs;
    assert Violates(s, settings, PctOutOfRange) ==> PctOutOfRange in vs;
  }

  /** The percentage is consistent when it is within one point of what the energies imply, or nothing was consumed. */
  lemma PctConsistentMeans(baseline: real, optimized: real, pct: real)
    ensures PctConsistent(baseline, optimized, pct) <==>
            !(baseline > 0.0) || (100.0 * (1.0 - optimized / baseline) - 1.0 <= pct
                                  && pct <= 100.0 * (1.0 - optimized / baseline) + 1.0)
  {
    if baseline > 0.0 {
      PctOfShare(baseline, optimized);
    }
  }
}
