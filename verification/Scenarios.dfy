/** The three scenario models: load shifting, setpoint adjustment and rooftop solar. */
module Scenarios {
  import opened Wrappers
  import opened OptimizationModels
  import opened Rounding
  import opened Statistics
  import opened Tariff
  import Bounds

  // ---------------------------------------------------------------- the one-variable linear program

  datatype LpResult = LpResult(success: bool, x: real)

  /** minimise c * x over lo <= x <= hi */
  type Solver = (real, real, real) -> LpResult

  function Objective(c: real, x: real): real { c * x }

  ghost predicate Minimises(c: real, lo: real, hi: real, x: real) {
    lo <= x <= hi && forall y | lo <= y <= hi :: Objective(c, x) <= Objective(c, y)
  }

  /** Feasible programs are solved, and a reported solution is a feasible minimiser. */
  ghost predicate Solves(solver: Solver) {
    forall c, lo, hi ::
      && (lo <= hi ==> solver(c, lo, hi).success)
      && (solver(c, lo, hi).success ==> Minimises(c, lo, hi, solver(c, lo, hi).x))
  }

  /** A minimiser of a non-constant objective is the end of the interval the slope points away from. */
  lemma MinimiserIsAnEnd(c: real, lo: real, hi: real, x: real)
    requires lo <= hi && Minimises(c, lo, hi, x)
    ensures c < 0.0 ==> x == hi
    ensures c > 0.0 ==> x == lo
  {
    assert Objective(c, x) <= Objective(c, hi) && Objective(c, x) <= Objective(c, lo);
    if c < 0.0 {
      ScaledOrder(x, hi, -c);
      assert x * -c == -Objective(c, x) && hi * -c == -Objective(c, hi);
    } else if c > 0.0 {
      ScaledOrder(lo, x, c);
    }
  }

  // ---------------------------------------------------------------- shared pieces

  function FindFinding(findings: seq<JustifyingFinding>,
                       cites: JustifyingFinding -> bool): (r: Option<JustifyingFinding>)
    ensures r.None? <==> forall f | f in findings :: !cites(f)
    ensures r.Some? ==> exists i | 0 <= i < |findings| ::
                          findings[i] == r.value && cites(findings[i]) && forall j | 0 <= j < i :: !cites(findings[j])
  {
    if findings == [] then None
    else if cites(findings[0]) then Some(findings[0])
    else
      var rest := FindFinding(findings[1..], cites);
      assert forall j | 0 < j < |findings| :: findings[j] == findings[1..][j - 1];
      assert rest.Some? ==> forall i | 0 <= i < |findings[1..]| :: findings[1..][i] == findings[i + 1];
      rest
  }

  function ReadingsOf(readings: seq<(Id, seq<Reading>)>, c: Id): seq<Reading> {
    if readings == [] then []
    else if readings[0].0 == c then readings[0].1
    else ReadingsOf(readings[1..], c)
  }

  function AllReadings(readings: seq<(Id, seq<Reading>)>): seq<Reading> {
    if readings == [] then [] else readings[0].1 + AllReadings(readings[1..])
  }

  function MaxReal(a: real, b: real): real { if a >= b then a else b }

  function MinReal(a: real, b: real): real { if a <= b then a else b }

  function Annualization(settings: Settings): (a: real)
    ensures 0.0 < a <= 365.0
  {
    365.0 / (if settings.windowDays >= 1 then settings.windowDays else 1) as real
  }

  /** A model's unrounded result. */
  datatype Figures = Figures(
    baseline: real,
    optimized: real,
    baselineEmissions: real,
    optimizedEmissions: real,
    pct: real,
    lowerPct: real,
    upperPct: real,
    annualSavings: real,
    payback: real)

  /** Emissions at constant carbon intensity, and the model's confidence multipliers low and high. */
  function Complete(baseline: real, optimized: real, pct: real, annualSavings: real, payback: real,
                    carbonIntensity: real, low: real, high: real): Figures
  {
    Figures(baseline, optimized, baseline * carbonIntensity, optimized * carbonIntensity,
            pct, pct * low, MinReal(pct * high, 100.0), annualSavings, payback)
  }

  /** Every figure rounded for the record. */
  function ScenarioOf(name: string, buildingId: Id, justifying: seq<Id>, f: Figures): Scenario {
    Scenario(name, 1, buildingId, justifying,
             Round2(f.baseline), Round2(f.optimized),
             Round2(f.baselineEmissions), Round2(f.optimizedEmissions),
             Round2(f.pct), Round2(f.lowerPct), Round2(f.upperPct),
             Round2(f.annualSavings), Round1(f.payback))
  }

  /** Nothing increases, nothing is negative, and the percentage is one. */
  predicate Sound(f: Figures) {
    && 0.0 <= f.optimized <= f.baseline
    && 0.0 <= f.optimizedEmissions <= f.baselineEmissions
    && 0.0 <= f.pct <= 100.0
    && f.annualSavings >= 0.0 && f.payback >= 0.0
  }

  lemma CompleteIsSound(baseline: real, optimized: real, pct: real, annualSavings: real, payback: real,
                        carbonIntensity: real, low: real, high: real)
    requires 0.0 <= optimized <= baseline && 0.0 <= pct <= 100.0
    requires annualSavings >= 0.0 && payback >= 0.0 && carbonIntensity >= 0.0
    ensures Sound(Complete(baseline, optimized, pct, annualSavings, payback, carbonIntensity, low, high))
  {
    NonNegativeProduct(optimized, carbonIntensity);
    Bounds.ShareOfMore(optimized, baseline, carbonIntensity);
  }

  /** Sound figures always make a valid record. */
  lemma SoundFieldsValid(name: string, buildingId: Id, justifying: seq<Id>, f: Figures)
    requires Sound(f) && justifying != []
    ensures FieldsValid(ScenarioOf(name, buildingId, justifying, f))
  {
    Round2Between(f.pct, 0, 10000);
    Round2Sign(f.baseline);
    Round2Sign(f.optimized);
    Round2Sign(f.baselineEmissions);
    Round2Sign(f.optimizedEmissions);
    Round2Sign(f.annualSavings);
    HalfEvenMonotone(0.0, f.payback * 10.0);
  }

  /**
   * Once the baseline rounds to 0 or to at least 1 kWh, a truthful scenario is judged on its plausible range and
   * payback alone: rounding by itself never makes it look like an increase or an inconsistent percentage.
   */
  lemma TruthfulPassesExactly(name: string, buildingId: Id, justifying: seq<Id>, f: Figures, settings: Settings)
    requires Sound(f) && Bounds.Truthful(f.baseline, f.optimized, f.pct)
    requires Round2(f.baseline) == 0.0 || Round2(f.baseline) >= 1.0
    ensures var s := ScenarioOf(name, buildingId, justifying, f);
            Bounds.Passes(s, settings) <==>
            settings.minPlausiblePct <= s.pctReduction <= settings.maxPlausiblePct
            && s.paybackMonths <= settings.maxPlausiblePayback
  {
    Bounds.TruthfulConsistent(f.baseline, f.optimized, f.pct);
    ConsistentPassesExactly(name, buildingId, justifying, f, settings);
  }

  lemma ConsistentPassesExactly(name: string, buildingId: Id, justifying: seq<Id>, f: Figures, settings: Settings)
    requires Sound(f) && Bounds.PctConsistent(Round2(f.baseline), Round2(f.optimized), Round2(f.pct))
    ensures var s := ScenarioOf(name, buildingId, justifying, f);
            Bounds.Passes(s, settings) <==>
            settings.minPlausiblePct <= s.pctReduction <= settings.maxPlausiblePct
            && s.paybackMonths <= settings.maxPlausiblePayback
  {
    Round2Monotone(f.optimized, f.baseline);
    Round2Monotone(f.optimizedEmissions, f.baselineEmissions);
    Bounds.PassesByParts(ScenarioOf(name, buildingId, justifying, f), settings);
  }

  lemma NonNegativeProduct(x: real, y: real)
    requires x >= 0.0 && y >= 0.0
    ensures x * y >= 0.0
  {
  }

  // ---------------------------------------------------------------- from figures to an outcome

  /** What a model makes of a building: a reason to abstain, or figures with the findings that justify them. */
  datatype Proposal = Abstain(reason: Reason) | Propose(justifying: seq<Id>, figures: Figures)

  function OutcomeOf(name: string, buildingId: Id, p: Proposal): Result<Outcome, ServiceError> {
    match p
    case Abstain(reason) => Ok(Unavailable(name, 1, buildingId, reason))
    case Propose(justifying, figures) => Construct(ScenarioOf(name, buildingId, justifying, figures))
  }

  /** Unrounded figures whose record satisfies its field constraints. */
  predicate Representable(f: Figures) {
    && f.baseline >= -0.005 && f.optimized >= -0.005
    && f.baselineEmissions >= -0.005 && f.optimizedEmissions >= -0.005
    && -0.005 <= f.pct <= 100.005
    && f.annualSavings >= -0.005 && f.payback >= -0.05
  }

  /** Building the record raises exactly on figures that are not representable. */
  lemma RepresentableExactly(name: string, buildingId: Id, justifying: seq<Id>, f: Figures)
    requires justifying != []
    ensures FieldsValid(ScenarioOf(name, buildingId, justifying, f)) <==> Representable(f)
  {
    Round2NonNegativeExactly(f.baseline);
    Round2NonNegativeExactly(f.optimized);
    Round2NonNegativeExactly(f.baselineEmissions);
    Round2NonNegativeExactly(f.optimizedEmissions);
    Round2NonNegativeExactly(f.pct);
    Round2AtMostHundredExactly(f.pct);
    Round2NonNegativeExactly(f.annualSavings);
    Round1NonNegativeExactly(f.payback);
  }

  /** Sound figures whose percentage is the one their energies imply. */
  ghost predicate Trustworthy(f: Figures) {
    Sound(f) && Bounds.Truthful(f.baseline, f.optimized, f.pct)
  }

  /** Where the consistency check cannot be tripped by rounding. */
  predicate BaselineLargeEnough(f: Figures) {
    Round2(f.baseline) == 0.0 || Round2(f.baseline) >= 1.0
  }

  /** Both ends of the plausible range stay inside it when rounded. */
  predicate EndsSurvive(settings: Settings) {
    settings.minPlausiblePct <= Round2(settings.minPlausiblePct)
    && Round2(settings.maxPlausiblePct) <= settings.maxPlausiblePct
  }

  /** The true reduction, before any rounding, is plausible, and the payback is within its ceiling. */
  predicate TrulyPlausible(f: Figures, settings: Settings) {
    settings.minPlausiblePct <= f.pct <= settings.maxPlausiblePct && Round1(f.payback) <= settings.maxPlausiblePayback
  }

  /** A scenario whose true reduction is plausible is accepted. */
  lemma TrueReductionAccepted(name: string, buildingId: Id, justifying: seq<Id>, f: Figures, settings: Settings)
    requires Trustworthy(f) && BaselineLargeEnough(f)
    requires TrulyPlausible(f, settings) && EndsSurvive(settings)
    ensures Bounds.Passes(ScenarioOf(name, buildingId, justifying, f), settings)
  {
    TruthfulPassesExactly(name, buildingId, justifying, f, settings);
    RangeSurvivesRounding(settings.minPlausiblePct, settings.maxPlausiblePct);
  }

  /** Figures of a reduction by exactly pct percent. */
  function Sample(pct: real): Figures {
    Figures(100.0, 100.0 - pct, 0.0, 0.0, pct, 0.0, 0.0, 0.0, 0.0)
  }

  lemma SampleTrustworthy(pct: real)
    requires 0.0 <= pct <= 100.0
    ensures Trustworthy(Sample(pct)) && BaselineLargeEnough(Sample(pct)) && Round1(Sample(pct).payback) == 0.0
  {
    Round2Fixed(10000);
    assert (100.0 - (100.0 - pct)) / 100.0 * 100.0 == pct;
  }

  /** That promise holds for all trustworthy figures exactly when both ends of the range survive rounding. */
  lemma RangePromiseExactly(name: string, buildingId: Id, justifying: seq<Id>, settings: Settings)
    requires 0.0 <= settings.minPlausiblePct <= settings.maxPlausiblePct <= 100.0
    requires settings.maxPlausiblePayback >= 0.0
    ensures (forall f | Trustworthy(f) && BaselineLargeEnough(f) && TrulyPlausible(f, settings) ::
               Bounds.Passes(ScenarioOf(name, buildingId, justifying, f), settings))
            <==> EndsSurvive(settings)
  {
    if EndsSurvive(settings) {
      forall f | Trustworthy(f) && BaselineLargeEnough(f) && TrulyPlausible(f, settings)
        ensures Bounds.Passes(ScenarioOf(name, buildingId, justifying, f), settings)
      {
        TrueReductionAccepted(name, buildingId, justifying, f, settings);
      }
    } else {
      var pct := if settings.minPlausiblePct <= Round2(settings.minPlausiblePct)
                 then settings.maxPlausiblePct else settings.minPlausiblePct;
      EndOutside(name, buildingId, justifying, pct, settings);
    }
  }

  lemma EndOutside(name: string, buildingId: Id, justifying: seq<Id>, pct: real, settings: Settings)
    requires 0.0 <= pct <= 100.0 && settings.minPlausiblePct <= pct <= settings.maxPlausiblePct
    requires !(settings.minPlausiblePct <= Round2(pct) <= settings.maxPlausiblePct)
    requires settings.maxPlausiblePayback >= 0.0
    ensures Trustworthy(Sample(pct)) && BaselineLargeEnough(Sample(pct)) && TrulyPlausible(Sample(pct), settings)
    ensures !Bounds.Passes(ScenarioOf(name, buildingId, justifying, Sample(pct)), settings)
  {
    SampleTrustworthy(pct);
    TruthfulPassesExactly(name, buildingId, justifying, Sample(pct), settings);
  }

  /**
   What becomes of a proposal: it raises exactly on figures that are not representable; trustworthy figures with a
   large enough baseline stand or fall on their rounded range and payback, and are accepted when their true
   reduction is plausible and the range ends survive rounding.
   */
  ghost predicate Verdict(name: string, buildingId: Id, p: Proposal, settings: Settings) {
    var r := OutcomeOf(name, buildingId, p);
    && (r.Ok? <==> (p.Propose? ==> Representable(p.figures)))
    && (p.Propose? && Trustworthy(p.figures) ==>
          && r.Ok? && r.value.Generated?
          && (BaselineLargeEnough(p.figures) ==> JudgedOnRange(r.value.scenario, settings))
          && (BaselineLargeEnough(p.figures) && TrulyPlausible(p.figures, settings) && EndsSurvive(settings) ==>
                Bounds.Passes(r.value.scenario, settings)))
  }

  ghost predicate JudgedOnRange(s: Scenario, settings: Settings) {
    Bounds.Passes(s, settings) <==>
      settings.minPlausiblePct <= s.pctReduction <= settings.maxPlausiblePct
      && s.paybackMonths <= settings.maxPlausiblePayback
  }

  lemma ProposalVerdict(name: string, buildingId: Id, p: Proposal, settings: Settings)
    requires p.Propose? ==> p.justifying != []
    ensures Verdict(name, buildingId, p, settings)
  {
    if p.Propose? {
      RepresentableExactly(name, buildingId, p.justifying, p.figures);
      if Trustworthy(p.figures) {
        SoundFieldsValid(name, buildingId, p.justifying, p.figures);
        if BaselineLargeEnough(p.figures) {
          TruthfulPassesExactly(name, buildingId, p.justifying, p.figures, settings);
          if TrulyPlausible(p.figures, settings) && EndsSurvive(settings) {
            TrueReductionAccepted(name, buildingId, p.justifying, p.figures, settings);
          }
        }
      }
    }
  }

  // ---------------------------------------------------------------- load shifting

  const LOAD_SHIFT := "load_shift_v1"
  const LOAD_TIMING_RULES := {"hvac_after_hours_v3", "weekend_vampire_load_v1", "scheduling_violation_v1"}

  /** The bill for peak energy when x kWh of it move to off-peak hours. */
  function Bill(peakKwh: real, x: real, peakRate: real, offpeakRate: real): real {
    (peakKwh - x) * peakRate + x * offpeakRate
  }

  function ShiftedKwh(solver: Solver, peakKwh: real, fraction: real, peakRate: real, offpeakRate: real): real {
    var result := solver(offpeakRate - peakRate, 0.0, peakKwh * fraction);
    if result.success then result.x else 0.0
  }

  function LoadShiftFigures(solver: Solver, peakKwh: real, peakRate: real, offpeakRate: real, settings: Settings,
                            carbonIntensity: real): Figures
    requires peakKwh > 0.0
  {
    var shifted := ShiftedKwh(solver, peakKwh, settings.maxShiftableFraction, peakRate, offpeakRate);
    var optimized := peakKwh - shifted;
    var savings := MaxReal(peakKwh * peakRate - (optimized * peakRate + shifted * offpeakRate), 0.0);
    Complete(peakKwh, optimized, shifted / peakKwh * 100.0, savings * Annualization(settings), 0.0, carbonIntensity,
             0.7, 1.3)
  }

  function LoadShiftProposal(solver: Solver, ctx: Context): (p: Proposal)
    ensures p.Propose? ==> p.justifying != []
  {
    match FindFinding(ctx.findings, (f: JustifyingFinding) => f.ruleIds * LOAD_TIMING_RULES != {})
    case None => Abstain(NoJustifyingFinding)
    case Some(finding) =>
      var readings := if finding.circuit.Some? then ReadingsOf(ctx.readings, finding.circuit.value) else [];
      if readings == [] then Abstain(NoReadings)
      else
        var peakKwh := PeakKwh(readings, ctx.settings.peakHours);
        if peakKwh <= 0.0 then Abstain(NoConsumption)
        else
          Propose([finding.findingId],
                  LoadShiftFigures(solver, peakKwh, PeakRate(ctx), OffpeakRate(ctx), ctx.settings, ctx.carbonIntensity))
  }

  function GenerateLoadShift(solver: Solver, ctx: Context): Result<Outcome, ServiceError> {
    OutcomeOf(LOAD_SHIFT, ctx.buildingId, LoadShiftProposal(solver, ctx))
  }

  lemma BillIsLinear(peakKwh: real, x: real, peakRate: real, offpeakRate: real)
    ensures Bill(peakKwh, x, peakRate, offpeakRate) == peakKwh * peakRate + Objective(offpeakRate - peakRate, x)
  {
    assert (peakKwh - x) * peakRate == peakKwh * peakRate - x * peakRate;
    assert (offpeakRate - peakRate) * x == offpeakRate * x - peakRate * x;
  }

  /** The program's choice is feasible, makes the bill least, and never costs more than shifting nothing. */
  lemma LoadShiftIsOptimal(solver: Solver, peakKwh: real, fraction: real, peakRate: real, offpeakRate: real)
    requires Solves(solver) && peakKwh > 0.0
    ensures var x, limit := ShiftedKwh(solver, peakKwh, fraction, peakRate, offpeakRate), peakKwh * fraction;
            && (fraction >= 0.0 ==> 0.0 <= x <= limit)
            && (fraction < 0.0 ==> x == 0.0)
            && (forall y | 0.0 <= y <= limit ::
                  Bill(peakKwh, x, peakRate, offpeakRate) <= Bill(peakKwh, y, peakRate, offpeakRate))
            && Bill(peakKwh, x, peakRate, offpeakRate) <= peakKwh * peakRate
  {
    var c, limit := offpeakRate - peakRate, peakKwh * fraction;
    var result := solver(c, 0.0, limit);
    var x := ShiftedKwh(solver, peakKwh, fraction, peakRate, offpeakRate);
    SignOfProduct(peakKwh, fraction);
    BillIsLinear(peakKwh, x, peakRate, offpeakRate);
    if fraction >= 0.0 {
      assert Minimises(c, 0.0, limit, x);
      assert Objective(c, x) <= Objective(c, 0.0);
      forall y | 0.0 <= y <= limit
        ensures Bill(peakKwh, x, peakRate, offpeakRate) <= Bill(peakKwh, y, peakRate, offpeakRate)
      {
        BillIsLinear(peakKwh, y, peakRate, offpeakRate);
      }
    }
  }

  lemma SignOfProduct(x: real, y: real)
    requires x > 0.0
    ensures x * y >= 0.0 <==> y >= 0.0
  {
  }

  /** Savings are the price difference on the shifted energy, so the floor at zero never takes effect. */
  lemma LoadShiftSavings(solver: Solver, peakKwh: real, peakRate: real, offpeakRate: real, settings: Settings, ci: real)
    requires Solves(solver) && peakKwh > 0.0
    ensures var x := ShiftedKwh(solver, peakKwh, settings.maxShiftableFraction, peakRate, offpeakRate);
            var f := LoadShiftFigures(solver, peakKwh, peakRate, offpeakRate, settings, ci);
            && x + f.optimized == peakKwh
            && x * (peakRate - offpeakRate) >= 0.0
            && f.annualSavings == x * (peakRate - offpeakRate) * Annualization(settings)
            && f.annualSavings >= 0.0
  {
    var x := ShiftedKwh(solver, peakKwh, settings.maxShiftableFraction, peakRate, offpeakRate);
    LoadShiftIsOptimal(solver, peakKwh, settings.maxShiftableFraction, peakRate, offpeakRate);
    BillIsLinear(peakKwh, x, peakRate, offpeakRate);
    assert Objective(offpeakRate - peakRate, x) == -(x * (peakRate - offpeakRate));
    NonNegativeProduct(x * (peakRate - offpeakRate), Annualization(settings));
  }

  /** With peak power dearer the whole allowance moves; with it cheaper nothing does. */
  lemma LoadShiftFollowsTariff(solver: Solver, peakKwh: real, fraction: real, peakRate: real, offpeakRate: real)
    requires Solves(solver) && peakKwh > 0.0 && fraction >= 0.0
    ensures var x := ShiftedKwh(solver, peakKwh, fraction, peakRate, offpeakRate);
            (peakRate > offpeakRate ==> x == peakKwh * fraction) && (peakRate < offpeakRate ==> x == 0.0)
  {
    SignOfProduct(peakKwh, fraction);
    var result := solver(offpeakRate - peakRate, 0.0, peakKwh * fraction);
    MinimiserIsAnEnd(offpeakRate - peakRate, 0.0, peakKwh * fraction, result.x);
  }

  lemma LoadShiftTruthful(solver: Solver, peakKwh: real, peakRate: real, offpeakRate: real, settings: Settings,
                          ci: real)
    requires Solves(solver) && peakKwh > 0.0 && 0.0 <= settings.maxShiftableFraction <= 1.0 && ci >= 0.0
    ensures var f := LoadShiftFigures(solver, peakKwh, peakRate, offpeakRate, settings, ci);
            Sound(f) && f.baseline == peakKwh && Bounds.Truthful(f.baseline, f.optimized, f.pct)
  {
    var x := ShiftedKwh(solver, peakKwh, settings.maxShiftableFraction, peakRate, offpeakRate);
    LoadShiftIsOptimal(solver, peakKwh, settings.maxShiftableFraction, peakRate, offpeakRate);
    LoadShiftSavings(solver, peakKwh, peakRate, offpeakRate, settings, ci);
    ShiftWithinPeak(peakKwh, settings.maxShiftableFraction, x);
    ShiftIsTruthful(peakKwh, x);
    var f := LoadShiftFigures(solver, peakKwh, peakRate, offpeakRate, settings, ci);
    CompleteIsSound(peakKwh, peakKwh - x, x / peakKwh * 100.0, f.annualSavings, 0.0, ci, 0.7, 1.3);
  }

  lemma ShiftWithinPeak(peakKwh: real, fraction: real, x: real)
    requires peakKwh > 0.0 && fraction <= 1.0 && x <= peakKwh * fraction
    ensures x <= peakKwh
  {
    ScaledOrder(1.0, fraction, peakKwh);
  }

  lemma ShiftIsTruthful(peakKwh: real, x: real)
    requires peakKwh > 0.0 && 0.0 <= x <= peakKwh
    ensures Bounds.Truthful(peakKwh, peakKwh - x, x / peakKwh * 100.0) && 0.0 <= x / peakKwh * 100.0 <= 100.0
  {
    assert peakKwh - (peakKwh - x) == x;
    Bounds.ShareInUnit(x, peakKwh);
  }

  // ---------------------------------------------------------------- setpoint adjustment

  const SETPOINT := "setpoint_adjustment_v1"

  function SetpointDelta(solver: Solver, ceiling: real): real {
    var result := solver(-1.0, 0.0, ceiling);
    if result.success then result.x else 0.0
  }

  function FractionFor(perDegree: real, delta: real): real { MinReal(perDegree * delta, 1.0) }

  function SetpointFigures(solver: Solver, baseline: real, blendedRate: real, settings: Settings,
                           carbonIntensity: real): Figures
  {
    var delta := SetpointDelta(solver, settings.maxSetpointDelta);
    var fraction := FractionFor(settings.consumptionPerDegree, delta);
    ReducedBy(baseline, fraction, blendedRate, Annualization(settings), carbonIntensity)
  }

  /** The figures of a reduction by a fraction of the baseline. */
  function ReducedBy(baseline: real, fraction: real, blendedRate: real, annualization: real,
                     carbonIntensity: real): Figures
  {
    var optimized := baseline * (1.0 - fraction);
    Complete(baseline, optimized, fraction * 100.0, (baseline - optimized) * blendedRate * annualization, 0.0,
             carbonIntensity, 0.6, 1.4)
  }

  function SetpointProposal(solver: Solver, ctx: Context): (p: Proposal)
    ensures p.Propose? ==> p.justifying != []
  {
    var hvac := set c | c in ctx.circuits && c.circuitType == "hvac" :: c.circuitId;
    match FindFinding(ctx.findings, (f: JustifyingFinding) => f.circuit.Some? && f.circuit.value in hvac)
    case None => Abstain(NoJustifyingFinding)
    case Some(finding) =>
      var readings := if finding.circuit.Some? then ReadingsOf(ctx.readings, finding.circuit.value) else [];
      if readings == [] then Abstain(NoReadings)
      else
        var baseline := TotalKwh(readings);
        if baseline <= 0.0 then Abstain(NoConsumption)
        else
          Propose([finding.findingId],
                  SetpointFigures(solver, baseline, BlendedRate(ctx, readings), ctx.settings, ctx.carbonIntensity))
  }

  function GenerateSetpoint(solver: Solver, ctx: Context): Result<Outcome, ServiceError> {
    OutcomeOf(SETPOINT, ctx.buildingId, SetpointProposal(solver, ctx))
  }

  /** The program drives the setpoint to exactly the configured ceiling. */
  lemma SetpointMovesToCeiling(solver: Solver, ceiling: real)
    requires Solves(solver) && ceiling >= 0.0
    ensures SetpointDelta(solver, ceiling) == ceiling
  {
    MinimiserIsAnEnd(-1.0, 0.0, ceiling, solver(-1.0, 0.0, ceiling).x);
  }

  lemma SetpointTruthful(solver: Solver, baseline: real, blendedRate: real, settings: Settings, ci: real)
    requires Solves(solver) && baseline > 0.0 && blendedRate >= 0.0 && ci >= 0.0
    requires settings.maxSetpointDelta >= 0.0 && settings.consumptionPerDegree >= 0.0
    ensures var f := SetpointFigures(solver, baseline, blendedRate, settings, ci);
            && Sound(f) && f.baseline == baseline && Bounds.Truthful(f.baseline, f.optimized, f.pct)
            && f.pct == MinReal(settings.consumptionPerDegree * settings.maxSetpointDelta, 1.0) * 100.0
  {
    SetpointMovesToCeiling(solver, settings.maxSetpointDelta);
    NonNegativeProduct(settings.consumptionPerDegree, settings.maxSetpointDelta);
    ReducedByTruthful(baseline, FractionFor(settings.consumptionPerDegree, settings.maxSetpointDelta), blendedRate,
                      Annualization(settings), ci);
  }

  lemma ReducedByTruthful(baseline: real, fraction: real, blendedRate: real, annualization: real, ci: real)
    requires baseline > 0.0 && 0.0 <= fraction <= 1.0 && blendedRate >= 0.0 && annualization >= 0.0 && ci >= 0.0
    ensures var f := ReducedBy(baseline, fraction, blendedRate, annualization, ci);
            Sound(f) && Bounds.Truthful(f.baseline, f.optimized, f.pct)
  {
    FractionIsTruthful(baseline, fraction);
    var optimized := baseline * (1.0 - fraction);
    SavingsNonNegative(baseline - optimized, blendedRate, annualization);
    CompleteIsSound(baseline, optimized, fraction * 100.0, (baseline - optimized) * blendedRate * annualization, 0.0,
                    ci, 0.6, 1.4);
  }

  lemma SavingsNonNegative(saved: real, rate: real, factor: real)
    requires saved >= 0.0 && rate >= 0.0 && factor >= 0.0
    ensures saved * rate * factor >= 0.0
  {
    NonNegativeProduct(saved, rate);
    NonNegativeProduct(saved * rate, factor);
  }

  lemma FractionIsTruthful(baseline: real, fraction: real)
    requires baseline > 0.0 && 0.0 <= fraction <= 1.0
    ensures Bounds.Truthful(baseline, baseline * (1.0 - fraction), fraction * 100.0)
  {
    Bounds.ShareOf(1.0 - fraction, baseline);
    assert baseline * (1.0 - fraction) == (1.0 - fraction) * baseline == baseline - fraction * baseline;
    QuotientIs(baseline - baseline * (1.0 - fraction), baseline, fraction);
  }

  // ---------------------------------------------------------------- rooftop solar

  const SOLAR := "solar_offset_v1"

  function AnnualGeneration(area: real, irradiance: real, settings: Settings): real {
    area * irradiance * settings.panelEfficiency * settings.performanceRatio * 365.0
  }

  function SolarFigures(baseline: real, generation: real, blendedRate: real, capex: real,
                        carbonIntensity: real): Figures
    requires baseline > 0.0
  {
    var optimized := MaxReal(baseline - generation, 0.0);
    var savings := (baseline - optimized) * blendedRate;
    Complete(baseline, optimized, (baseline - optimized) / baseline * 100.0, savings,
             if savings > 0.0 then capex / (savings / 12.0) else 9999.0, carbonIntensity, 0.75, 1.25)
  }

  function SolarCapex(area: real, settings: Settings): real {
    area * settings.capacityDensity * settings.capexPerKw
  }

  /** The annual figures the estimate rests on. */
  datatype SolarInputs = SolarInputs(baseline: real, generation: real, blendedRate: real, capex: real,
                                     carbonIntensity: real)

  function SolarInputsOf(ctx: Context, readings: seq<Reading>): (i: SolarInputs)
    requires TotalKwh(readings) > 0.0 && ctx.rooftopArea.Some? && ctx.irradiance.Some?
    ensures i.baseline > 0.0
  {
    PositiveProduct(TotalKwh(readings), Annualization(ctx.settings));
    SolarInputs(TotalKwh(readings) * Annualization(ctx.settings),
                AnnualGeneration(ctx.rooftopArea.value, ctx.irradiance.value, ctx.settings),
                BlendedRate(ctx, readings), SolarCapex(ctx.rooftopArea.value, ctx.settings), ctx.carbonIntensity)
  }

  function SolarFiguresOf(i: SolarInputs): Figures
    requires i.baseline > 0.0
  {
    SolarFigures(i.baseline, i.generation, i.blendedRate, i.capex, i.carbonIntensity)
  }

  function FindingIds(findings: seq<JustifyingFinding>): (ids: seq<Id>)
    ensures |ids| == |findings|
  {
    seq(|findings|, i requires 0 <= i < |findings| => findings[i].findingId)
  }

  function SolarProposal(ctx: Context): (p: Proposal)
    ensures p.Propose? ==> p.justifying != []
  {
    if ctx.findings == [] then Abstain(NoJustifyingFinding)
    else if ctx.rooftopArea.None? || ctx.rooftopArea.value <= 0.0 then Abstain(NoRooftop)
    else if ctx.latitude.None? || ctx.longitude.None? then Abstain(NoLocation)
    else if ctx.irradiance.None? then Abstain(NoIrradiance)
    else
      var readings := AllReadings(ctx.readings);
      if TotalKwh(readings) <= 0.0 then Abstain(NoConsumption)
      else Propose(FindingIds(ctx.findings), SolarFiguresOf(SolarInputsOf(ctx, readings)))
  }

  function GenerateSolar(ctx: Context): Result<Outcome, ServiceError> {
    OutcomeOf(SOLAR, ctx.buildingId, SolarProposal(ctx))
  }

  lemma PositiveProduct(x: real, y: real)
    requires x > 0.0 && y > 0.0
    ensures x * y > 0.0
  {
  }

  lemma QuotientNonNegative(x: real, k: real)
    requires x >= 0.0 && k > 0.0
    ensures x / k >= 0.0
  {
  }

  lemma EqualProducts(x: real, y: real, k: real)
    requires x == y
    ensures x * k == y * k
  {
  }

  lemma ShareLeft(baseline: real, optimized: real, pct: real)
    requires 0.0 <= optimized <= baseline && baseline > 0.0 && pct == (baseline - optimized) / baseline * 100.0
    ensures Bounds.Truthful(baseline, optimized, pct) && 0.0 <= pct <= 100.0
  {
    ShiftIsTruthful(baseline, baseline - optimized);
    assert baseline - (baseline - optimized) == optimized;
  }

  lemma CompleteKeeps(baseline: real, optimized: real, pct: real, annualSavings: real, payback: real, ci: real,
                      low: real, high: real)
    ensures var f := Complete(baseline, optimized, pct, annualSavings, payback, ci, low, high);
            f.baseline == baseline && f.optimized == optimized && f.pct == pct && f.annualSavings == annualSavings
  {
  }

  lemma OffsetTruthful(baseline: real, optimized: real, pct: real, savings: real, blendedRate: real, capex: real,
                       ci: real)
    requires 0.0 <= optimized <= baseline && baseline > 0.0 && blendedRate >= 0.0 && capex >= 0.0 && ci >= 0.0
    requires pct == (baseline - optimized) / baseline * 100.0 && savings == (baseline - optimized) * blendedRate
    ensures var payback := if savings > 0.0 then capex / (savings / 12.0) else 9999.0;
            var f := Complete(baseline, optimized, pct, savings, payback, ci, 0.75, 1.25);
            Sound(f) && Bounds.Truthful(baseline, optimized, pct)
            && f.baseline == baseline && f.optimized == optimized && f.pct == pct && f.annualSavings == savings
  {
    var payback := if savings > 0.0 then capex / (savings / 12.0) else 9999.0;
    ShareLeft(baseline, optimized, pct);
    NonNegativeProduct(baseline - optimized, blendedRate);
    if savings > 0.0 {
      QuotientNonNegative(capex, savings / 12.0);
    }
    hide Sound, Complete, Bounds.Truthful;
    CompleteIsSound(baseline, optimized, pct, savings, payback, ci, 0.75, 1.25);
    CompleteKeeps(baseline, optimized, pct, savings, payback, ci, 0.75, 1.25);
  }

  /** The offset is the smaller of generation and consumption; figures are truthful. */
  lemma SolarTruthful(baseline: real, generation: real, blendedRate: real, capex: real, ci: real)
    requires baseline > 0.0 && generation >= 0.0 && blendedRate >= 0.0 && capex >= 0.0 && ci >= 0.0
    ensures var f := SolarFigures(baseline, generation, blendedRate, capex, ci);
            Sound(f) && f.baseline == baseline && Bounds.Truthful(f.baseline, f.optimized, f.pct)
            && f.baseline - f.optimized == MinReal(baseline, generation)
            && f.annualSavings == MinReal(baseline, generation) * blendedRate
  {
    var optimized := MaxReal(baseline - generation, 0.0);
    EqualProducts(baseline - optimized, MinReal(baseline, generation), blendedRate);
    hide Sound, Complete, MaxReal, MinReal, Bounds.Truthful;
    OffsetTruthful(baseline, optimized, (baseline - optimized) / baseline * 100.0, (baseline - optimized) * blendedRate,
                   blendedRate, capex, ci);
  }

  lemma PaybackPerSqm(baseline: real, area: real, generation: real, yieldPerSqm: real, capex: real, costPerSqm: real,
                      blendedRate: real, ci: real)
    requires area > 0.0 && yieldPerSqm > 0.0 && blendedRate > 0.0 && 0.0 < generation <= baseline
    requires generation == area * yieldPerSqm && capex == area * costPerSqm
    ensures yieldPerSqm * blendedRate > 0.0
    ensures SolarFigures(baseline, generation, blendedRate, capex, ci).payback
            == costPerSqm * 12.0 / (yieldPerSqm * blendedRate)
  {
    var y := yieldPerSqm * blendedRate;
    PositiveProduct(yieldPerSqm, blendedRate);
    PositiveProduct(area, y);
    assert generation * blendedRate == area * y;
    var p := costPerSqm * 12.0 / y;
    QuotientTimes(costPerSqm * 12.0, y);
    assert p * (area * y / 12.0) == area * (p * y) / 12.0;
    QuotientIs(capex, area * y / 12.0, p);
    assert baseline - (baseline - generation) == generation;
  }

  function YieldPerSqm(irradiance: real, settings: Settings): real {
    irradiance * settings.panelEfficiency * settings.performanceRatio * 365.0
  }

  lemma GenerationPerSqm(area: real, irradiance: real, settings: Settings)
    ensures AnnualGeneration(area, irradiance, settings) == area * YieldPerSqm(irradiance, settings)
  {
    var e, p := settings.panelEfficiency, settings.performanceRatio;
    assert area * irradiance * e == area * (irradiance * e);
    assert area * (irradiance * e) * p == area * (irradiance * e * p);
  }

  /**
   * While the roof generates no more than the building uses, its payback does not depend on the roof's size:
   * cost and yield both scale with the area.
   */
  lemma SolarPaybackScaleFree(baseline: real, area: real, irradiance: real, settings: Settings, blendedRate: real,
                              ci: real)
    requires area > 0.0 && YieldPerSqm(irradiance, settings) > 0.0 && blendedRate > 0.0
    requires 0.0 < AnnualGeneration(area, irradiance, settings) <= baseline
    ensures YieldPerSqm(irradiance, settings) * blendedRate > 0.0
    ensures SolarFigures(baseline, AnnualGeneration(area, irradiance, settings), blendedRate,
                         SolarCapex(area, settings), ci).payback
            == settings.capacityDensity * settings.capexPerKw * 12.0 / (YieldPerSqm(irradiance, settings) * blendedRate)
  {
    GenerationPerSqm(area, irradiance, settings);
    var cost := settings.capacityDensity * settings.capexPerKw;
    assert SolarCapex(area, settings) == area * cost;
    PaybackPerSqm(baseline, area, AnnualGeneration(area, irradiance, settings), YieldPerSqm(irradiance, settings),
                  SolarCapex(area, settings), cost, blendedRate, ci);
  }

  // ---------------------------------------------------------------- verdicts end to end

  lemma LoadShiftTrustworthy(solver: Solver, ctx: Context)
    requires Solves(solver) && 0.0 <= ctx.settings.maxShiftableFraction <= 1.0 && ctx.carbonIntensity >= 0.0
    ensures var p := LoadShiftProposal(solver, ctx); p.Propose? ==> Trustworthy(p.figures)
  {
    var found := FindFinding(ctx.findings, (f: JustifyingFinding) => f.ruleIds * LOAD_TIMING_RULES != {});
    if found.Some? && found.value.circuit.Some? {
      var readings := ReadingsOf(ctx.readings, found.value.circuit.value);
      var peakKwh := PeakKwh(readings, ctx.settings.peakHours);
      if readings != [] && peakKwh > 0.0 {
        LoadShiftTruthful(solver, peakKwh, PeakRate(ctx), OffpeakRate(ctx), ctx.settings, ctx.carbonIntensity);
      }
    }
  }

  /** Load shifting: the verdict on its proposal, whose figures are trustworthy for a fraction within [0, 1]. */
  lemma LoadShiftJudgedOnRange(solver: Solver, ctx: Context)
    requires Solves(solver)
    ensures Verdict(LOAD_SHIFT, ctx.buildingId, LoadShiftProposal(solver, ctx), ctx.settings)
    ensures var p := LoadShiftProposal(solver, ctx);
            p.Propose? && 0.0 <= ctx.settings.maxShiftableFraction <= 1.0 && ctx.carbonIntensity >= 0.0 ==>
              Trustworthy(p.figures)
  {
    ProposalVerdict(LOAD_SHIFT, ctx.buildingId, LoadShiftProposal(solver, ctx), ctx.settings);
    if 0.0 <= ctx.settings.maxShiftableFraction <= 1.0 && ctx.carbonIntensity >= 0.0 {
      LoadShiftTrustworthy(solver, ctx);
    }
  }

  predicate RatesAndReadingsNonNegative(ctx: Context) {
    && PeakRate(ctx) >= 0.0 && OffpeakRate(ctx) >= 0.0
    && forall entry | entry in ctx.readings :: forall r | r in entry.1 :: Known(r) >= 0.0
  }

  lemma {:induction false} ReadingsOfMember(readings: seq<(Id, seq<Reading>)>, c: Id)
    requires forall entry | entry in readings :: forall r | r in entry.1 :: Known(r) >= 0.0
    ensures forall r | r in ReadingsOf(readings, c) :: Known(r) >= 0.0
    ensures forall r | r in AllReadings(readings) :: Known(r) >= 0.0
  {
    if readings != [] {
      ReadingsOfMember(readings[1..], c);
    }
  }

  lemma BlendedNonNegative(ctx: Context, readings: seq<Reading>)
    requires RatesAndReadingsNonNegative(ctx) && forall r | r in readings :: Known(r) >= 0.0
    ensures BlendedRate(ctx, readings) >= 0.0
  {
    BlendedBetween(ctx, readings);
  }

  predicate SetpointInputsValid(ctx: Context) {
    && ctx.carbonIntensity >= 0.0 && RatesAndReadingsNonNegative(ctx)
    && ctx.settings.maxSetpointDelta >= 0.0 && ctx.settings.consumptionPerDegree >= 0.0
  }

  lemma SetpointTrustworthy(solver: Solver, ctx: Context)
    requires Solves(solver) && SetpointInputsValid(ctx)
    ensures var p := SetpointProposal(solver, ctx); p.Propose? ==> Trustworthy(p.figures)
  {
    var hvac := set c | c in ctx.circuits && c.circuitType == "hvac" :: c.circuitId;
    var found := FindFinding(ctx.findings, (f: JustifyingFinding) => f.circuit.Some? && f.circuit.value in hvac);
    if found.Some? && found.value.circuit.Some? {
      var readings := ReadingsOf(ctx.readings, found.value.circuit.value);
      var baseline := TotalKwh(readings);
      if readings != [] && baseline > 0.0 {
        ReadingsOfMember(ctx.readings, found.value.circuit.value);
        BlendedNonNegative(ctx, readings);
        SetpointTruthful(solver, baseline, BlendedRate(ctx, readings), ctx.settings, ctx.carbonIntensity);
      }
    }
  }

  /** Setpoint adjustment: the verdict on its proposal, whose figures are trustworthy for non-negative inputs. */
  lemma SetpointJudgedOnRange(solver: Solver, ctx: Context)
    requires Solves(solver)
    ensures Verdict(SETPOINT, ctx.buildingId, SetpointProposal(solver, ctx), ctx.settings)
    ensures var p := SetpointProposal(solver, ctx); p.Propose? && SetpointInputsValid(ctx) ==> Trustworthy(p.figures)
  {
    ProposalVerdict(SETPOINT, ctx.buildingId, SetpointProposal(solver, ctx), ctx.settings);
    if SetpointInputsValid(ctx) {
      SetpointTrustworthy(solver, ctx);
    }
  }

  predicate SolarAssumptionsNonNegative(settings: Settings) {
    && settings.panelEfficiency >= 0.0 && settings.performanceRatio >= 0.0
    && settings.capacityDensity >= 0.0 && settings.capexPerKw >= 0.0
  }

  lemma SolarInputsNonNegative(area: real, irradiance: real, settings: Settings)
    requires area >= 0.0 && irradiance >= 0.0 && SolarAssumptionsNonNegative(settings)
    ensures AnnualGeneration(area, irradiance, settings) >= 0.0
    ensures SolarCapex(area, settings) >= 0.0
  {
    SavingsNonNegative(area, settings.capacityDensity, settings.capexPerKw);
    SavingsNonNegative(area, irradiance, settings.panelEfficiency);
    NonNegativeProduct(area * irradiance * settings.panelEfficiency, settings.performanceRatio);
  }

  predicate SolarInputsValid(ctx: Context) {
    && ctx.carbonIntensity >= 0.0 && RatesAndReadingsNonNegative(ctx) && SolarAssumptionsNonNegative(ctx.settings)
    && (ctx.irradiance.Some? ==> ctx.irradiance.value >= 0.0)
  }

  lemma SolarInputsAreNonNegative(ctx: Context, readings: seq<Reading>)
    requires SolarInputsValid(ctx) && readings == AllReadings(ctx.readings)
    requires TotalKwh(readings) > 0.0 && ctx.rooftopArea.Some? && ctx.rooftopArea.value > 0.0 && ctx.irradiance.Some?
    ensures var i := SolarInputsOf(ctx, readings);
            i.generation >= 0.0 && i.blendedRate >= 0.0 && i.capex >= 0.0 && i.carbonIntensity >= 0.0
  {
    ReadingsOfMember(ctx.readings, 0);
    BlendedNonNegative(ctx, readings);
    SolarInputsNonNegative(ctx.rooftopArea.value, ctx.irradiance.value, ctx.settings);
  }

  lemma SolarFiguresTrustworthy(i: SolarInputs)
    requires i.baseline > 0.0 && i.generation >= 0.0 && i.blendedRate >= 0.0 && i.capex >= 0.0 &&
             i.carbonIntensity >= 0.0
    ensures Trustworthy(SolarFiguresOf(i))
  {
    SolarTruthful(i.baseline, i.generation, i.blendedRate, i.capex, i.carbonIntensity);
  }

  lemma SolarTrustworthy(ctx: Context)
    requires SolarInputsValid(ctx)
    ensures var p := SolarProposal(ctx); p.Propose? ==> Trustworthy(p.figures)
  {
    var readings := AllReadings(ctx.readings);
    if SolarProposal(ctx).Propose? {
      SolarInputsAreNonNegative(ctx, readings);
      SolarFiguresTrustworthy(SolarInputsOf(ctx, readings));
    }
  }

  /** Rooftop solar: the verdict on its proposal, whose figures are trustworthy for non-negative inputs. */
  lemma SolarJudgedOnRange(ctx: Context)
    ensures Verdict(SOLAR, ctx.buildingId, SolarProposal(ctx), ctx.settings)
    ensures var p := SolarProposal(ctx); p.Propose? && SolarInputsValid(ctx) ==> Trustworthy(p.figures)
  {
    ProposalVerdict(SOLAR, ctx.buildingId, SolarProposal(ctx), ctx.settings);
    if SolarInputsValid(ctx) {
      SolarTrustworthy(ctx);
    }
  }
}
