/** What each scenario model returns, said from the building's context to the rounded record. */
module ScenarioMeaning {
  import opened Wrappers
  import opened OptimizationModels
  import opened Rounding
  import opened Statistics
  import opened Tariff
  import opened Scenarios

  // ---------------------------------------------------------------- energies and rates

  /** The known values, zero where a reading has none. */
  function KwhColumn(readings: seq<Reading>): (values: seq<real>)
    ensures |values| == |readings|
    ensures forall k | 0 <= k < |readings| ::
              values[k] == match readings[k].kwh { case Some(x) => x case None => 0.0 }
  {
    seq(|readings|, k requires 0 <= k < |readings| => match readings[k].kwh { case Some(x) => x case None => 0.0 })
  }

  /** The known values at peak hours, zero elsewhere. */
  function PeakColumn(readings: seq<Reading>, peakHours: set<int>): (values: seq<real>)
    ensures |values| == |readings|
    ensures forall k | 0 <= k < |readings| ::
              values[k] == if readings[k].hour in peakHours then KwhColumn(readings)[k] else 0.0
  {
    seq(|readings|, k requires 0 <= k < |readings| =>
      if readings[k].hour in peakHours then KwhColumn(readings)[k] else 0.0)
  }

  lemma {:induction false} EnergiesAreSums(readings: seq<Reading>, peakHours: set<int>)
    ensures TotalKwh(readings) == Sum(KwhColumn(readings))
    ensures PeakKwh(readings, peakHours) == Sum(PeakColumn(readings, peakHours))
  {
    if readings != [] {
      EnergiesAreSums(readings[1..], peakHours);
      assert KwhColumn(readings)[1..] == KwhColumn(readings[1..]);
      assert PeakColumn(readings, peakHours)[1..] == PeakColumn(readings[1..], peakHours);
    }
  }

  lemma BillParts(total: real, peak: real, share: real, p: real, q: real)
    requires share * total == peak
    ensures Blend(share, p, q) * total == peak * p + (total - peak) * q
  {
    assert share * p * total == (share * total) * p;
    assert (1.0 - share) * q * total == (total - share * total) * q;
  }

  /** Charging everything at the blended rate gives the bill of the two rates; without consumption it is off-peak. */
  lemma BlendedRateBills(ctx: Context, readings: seq<Reading>)
    ensures var total, peak := TotalKwh(readings), PeakKwh(readings, ctx.settings.peakHours);
            && (total > 0.0 ==>
                  BlendedRate(ctx, readings) * total == peak * PeakRate(ctx) + (total - peak) * OffpeakRate(ctx))
            && (total <= 0.0 ==> BlendedRate(ctx, readings) == OffpeakRate(ctx))
  {
    var total, peak := TotalKwh(readings), PeakKwh(readings, ctx.settings.peakHours);
    if total > 0.0 {
      QuotientTimes(peak, total);
      BillParts(total, peak, peak / total, PeakRate(ctx), OffpeakRate(ctx));
    }
  }

  /** A rate is the tariff's numeric entry under its own key, or the default of its own kind. */
  lemma RatesMean(ctx: Context)
    ensures PeakRate(ctx) == DeclaredOr(ctx, "peak_rate_inr_per_kwh", ctx.settings.defaultPeakRate)
    ensures OffpeakRate(ctx) == DeclaredOr(ctx, "offpeak_rate_inr_per_kwh", ctx.settings.defaultOffpeakRate)
  {
  }

  function DeclaredOr(ctx: Context, key: string, default: real): real {
    match ctx.tariff
    case None => default
    case Some(schedule) =>
      if key !in schedule then default
      else match schedule[key] { case Rate(rate) => rate case NotANumber => default }
  }

  /** The readings kept for a circuit: those of its entry, none without one. */
  lemma {:induction false} ReadingsOfMeans(readings: seq<(Id, seq<Reading>)>, c: Id)
    ensures forall i | 0 <= i < |readings| && readings[i].0 == c && forall j | 0 <= j < i :: readings[j].0 != c ::
              ReadingsOf(readings, c) == readings[i].1
    ensures (forall entry | entry in readings :: entry.0 != c) ==> ReadingsOf(readings, c) == []
  {
    if readings != [] {
      var tail := readings[1..];
      assert readings == [readings[0]] + tail;
      ReadingsOfMeans(tail, c);
      forall i | 0 <= i < |readings| && readings[i].0 == c && forall j | 0 <= j < i :: readings[j].0 != c
        ensures ReadingsOf(readings, c) == readings[i].1
      {
        if i > 0 {
          assert readings[0].0 != c;
          assert tail[i - 1] == readings[i] && forall j | 0 <= j < i - 1 :: tail[j] == readings[j + 1];
        }
      }
    }
  }

  /** The building's readings are those of all circuits, one circuit after the other. */
  lemma AllReadingsMean(readings: seq<(Id, seq<Reading>)>, more: (Id, seq<Reading>))
    ensures AllReadings([]) == []
    ensures AllReadings(readings + [more]) == AllReadings(readings) + more.1
  {
    AllReadingsAppend(readings, more);
  }

  lemma {:induction false} AllReadingsAppend(readings: seq<(Id, seq<Reading>)>, more: (Id, seq<Reading>))
    ensures AllReadings(readings + [more]) == AllReadings(readings) + more.1
  {
    if readings == [] {
      assert readings + [more] == [more] && [more][1..] == [];
    } else {
      AllReadingsAppend(readings[1..], more);
      assert (readings + [more])[1..] == readings[1..] + [more];
    }
  }

  /** How often the lookback window fits into a year; a window of less than a day counts as one day. */
  function PerYear(settings: Settings): real {
    365.0 / (if settings.windowDays < 1 then 1 else settings.windowDays) as real
  }

  // ---------------------------------------------------------------- what every record says

  /** The band around the percentage: both ends scaled, the upper one cut off at a hundred. */
  predicate Band(s: Scenario, pct: real, low: real, high: real) {
    && s.pctReduction == Round2(pct)
    && s.lowerPct == Round2(LowEnd(pct, low)) && s.upperPct == Round2(HighEnd(pct, high))
  }

  function LowEnd(pct: real, low: real): real { pct * low }

  function HighEnd(pct: real, high: real): real { if pct * high > 100.0 then 100.0 else pct * high }

  function Emitted(ctx: Context, kwh: real): real { kwh * ctx.carbonIntensity }

  function Percent(part: real, whole: real): real
    requires whole > 0.0
  {
    part / whole * 100.0
  }

  /** Energies before and after, and the emissions they cause at the building's carbon intensity. */
  predicate Energies(s: Scenario, ctx: Context, baseline: real, optimized: real) {
    && s.baselineKwh == Round2(baseline) && s.optimizedKwh == Round2(optimized)
    && s.baselineEmissions == Round2(Emitted(ctx, baseline))
    && s.optimizedEmissions == Round2(Emitted(ctx, optimized))
  }

  predicate Identity(s: Scenario, ctx: Context, name: string, justifying: seq<Id>) {
    && s.scenarioModel == name && s.modelVersion == 1
    && s.buildingId == ctx.buildingId && s.justifying == justifying
  }

  predicate Abstains(r: Result<Outcome, ServiceError>, ctx: Context, name: string, reason: Reason) {
    r == Ok(Unavailable(name, 1, ctx.buildingId, reason))
  }

  lemma CompleteRecord(name: string, ctx: Context, justifying: seq<Id>, baseline: real, optimized: real, pct: real,
                       savings: real, payback: real, low: real, high: real)
    ensures var f := Complete(baseline, optimized, pct, savings, payback, ctx.carbonIntensity, low, high);
            var s := ScenarioOf(name, ctx.buildingId, justifying, f);
            && Identity(s, ctx, name, justifying) && Energies(s, ctx, baseline, optimized) && Band(s, pct, low, high)
            && s.annualSavings == Round2(savings) && s.paybackMonths == Round1(payback)
  {
    var f := Complete(baseline, optimized, pct, savings, payback, ctx.carbonIntensity, low, high);
    assert f.baselineEmissions == Emitted(ctx, baseline) && f.optimizedEmissions == Emitted(ctx, optimized);
    assert f.lowerPct == LowEnd(pct, low) && f.upperPct == HighEnd(pct, high);
    assert f.baseline == baseline && f.optimized == optimized && f.pct == pct;
    assert f.annualSavings == savings && f.payback == payback;
    hide Round2, Round1, Emitted, Complete, LowEnd, HighEnd;
  }

  lemma GeneratedRecord(name: string, buildingId: Id, justifying: seq<Id>, f: Figures)
    ensures var r := OutcomeOf(name, buildingId, Propose(justifying, f));
            r.Ok? ==> r.value.Generated? && r.value.scenario == ScenarioOf(name, buildingId, justifying, f)
  {
    hide ScenarioOf, FieldsValid;
  }

  /** The first finding of the list with a property. */
  ghost predicate First(findings: seq<JustifyingFinding>, i: nat, cites: JustifyingFinding -> bool) {
    i < |findings| && cites(findings[i]) && forall j | 0 <= j < i :: !cites(findings[j])
  }

  lemma FirstIsFound(findings: seq<JustifyingFinding>, i: nat, cites: JustifyingFinding -> bool)
    requires First(findings, i, cites)
    ensures FindFinding(findings, cites) == Some(findings[i])
  {
  }

  // ---------------------------------------------------------------- load shifting

  /** The finding cites one of the three load-timing rules. */
  predicate CitesTiming(f: JustifyingFinding) {
    || "hvac_after_hours_v3" in f.ruleIds
    || "weekend_vampire_load_v1" in f.ruleIds
    || "scheduling_violation_v1" in f.ruleIds
  }

  lemma TimingRules(findings: seq<JustifyingFinding>)
    ensures FindFinding(findings, (f: JustifyingFinding) => f.ruleIds * LOAD_TIMING_RULES != {})
            == FindFinding(findings, CitesTiming)
  {
    SameFinding(findings, (f: JustifyingFinding) => f.ruleIds * LOAD_TIMING_RULES != {}, CitesTiming) by {
      forall f: JustifyingFinding ensures f.ruleIds * LOAD_TIMING_RULES != {} <==> CitesTiming(f) {
        if CitesTiming(f) {
          assert "hvac_after_hours_v3" in f.ruleIds * LOAD_TIMING_RULES
              || "weekend_vampire_load_v1" in f.ruleIds * LOAD_TIMING_RULES
              || "scheduling_violation_v1" in f.ruleIds * LOAD_TIMING_RULES;
        }
      }
    }
  }

  lemma {:induction false} SameFinding(findings: seq<JustifyingFinding>, p: JustifyingFinding -> bool,
                                       q: JustifyingFinding -> bool)
    requires forall f :: p(f) <==> q(f)
    ensures FindFinding(findings, p) == FindFinding(findings, q)
  {
    if findings != [] {
      SameFinding(findings[1..], p, q);
    }
  }

  /** Abstains without a finding that cites a timing rule, without readings, and without peak consumption. */
  lemma LoadShiftAbstains(solver: Solver, ctx: Context)
    ensures (forall f | f in ctx.findings :: !CitesTiming(f)) ==>
              Abstains(GenerateLoadShift(solver, ctx), ctx, "load_shift_v1", NoJustifyingFinding)
    ensures forall i: nat | First(ctx.findings, i, CitesTiming) ::
              var readings := CircuitReadings(ctx, ctx.findings[i]);
              && (readings == [] ==> Abstains(GenerateLoadShift(solver, ctx), ctx, "load_shift_v1", NoReadings))
              && (readings != [] && PeakKwh(readings, ctx.settings.peakHours) <= 0.0 ==>
                    Abstains(GenerateLoadShift(solver, ctx), ctx, "load_shift_v1", NoConsumption))
  {
    TimingRules(ctx.findings);
    forall i: nat | First(ctx.findings, i, CitesTiming)
      ensures FindFinding(ctx.findings, CitesTiming) == Some(ctx.findings[i])
    {
      FirstIsFound(ctx.findings, i, CitesTiming);
    }
  }

  function CircuitReadings(ctx: Context, f: JustifyingFinding): seq<Reading> {
    match f.circuit case Some(c) => ReadingsOf(ctx.readings, c) case None => []
  }

  /** A year's bill difference for moving x kWh of each window to off-peak hours. */
  function ShiftSavings(ctx: Context, x: real): real {
    x * (PeakRate(ctx) - OffpeakRate(ctx)) * PerYear(ctx.settings)
  }

  /** The record of a shift of x out of the peak energy. */
  predicate LoadShiftRecord(s: Scenario, ctx: Context, f: JustifyingFinding, peakKwh: real, x: real)
    requires peakKwh > 0.0
  {
    && Identity(s, ctx, "load_shift_v1", [f.findingId])
    && Energies(s, ctx, peakKwh, peakKwh - x) && Band(s, Percent(x, peakKwh), 0.7, 1.3)
    && s.annualSavings == Round2(ShiftSavings(ctx, x)) && s.paybackMonths == Round1(0.0)
  }

  /** The shift leaves no cheaper one within the allowance, and shifts nothing when there is no allowance. */
  ghost predicate CheapestShift(ctx: Context, peakKwh: real, x: real) {
    var limit := peakKwh * ctx.settings.maxShiftableFraction;
    && (ctx.settings.maxShiftableFraction < 0.0 ==> x == 0.0)
    && (ctx.settings.maxShiftableFraction >= 0.0 ==>
          0.0 <= x <= limit
          && forall y | 0.0 <= y <= limit ::
               Bill(peakKwh, x, PeakRate(ctx), OffpeakRate(ctx)) <= Bill(peakKwh, y, PeakRate(ctx), OffpeakRate(ctx)))
  }

  lemma LoadShiftFiguresAre(solver: Solver, ctx: Context, peakKwh: real, x: real)
    requires Solves(solver) && peakKwh > 0.0
    requires x == ShiftedKwh(solver, peakKwh, ctx.settings.maxShiftableFraction, PeakRate(ctx), OffpeakRate(ctx))
    ensures LoadShiftFigures(solver, peakKwh, PeakRate(ctx), OffpeakRate(ctx), ctx.settings, ctx.carbonIntensity)
            == Complete(peakKwh, peakKwh - x, Percent(x, peakKwh), ShiftSavings(ctx, x), 0.0, ctx.carbonIntensity, 0.7,
                        1.3)
  {
    var p, q, settings, ci := PeakRate(ctx), OffpeakRate(ctx), ctx.settings, ctx.carbonIntensity;
    var f := LoadShiftFigures(solver, peakKwh, p, q, settings, ci);
    LoadShiftSavings(solver, peakKwh, p, q, settings, ci);
    assert f.annualSavings == ShiftSavings(ctx, x) && f.pct == Percent(x, peakKwh) && f.optimized == peakKwh - x;
    assert f == Complete(peakKwh, f.optimized, f.pct, f.annualSavings, 0.0, ci, 0.7, 1.3) by {
      hide ShiftedKwh, Solves, Percent, ShiftSavings, PeakRate, OffpeakRate;
    }
  }

  lemma LoadShiftFigureRecord(solver: Solver, ctx: Context, f: JustifyingFinding, peakKwh: real)
    requires Solves(solver) && peakKwh > 0.0
    ensures var x := ShiftedKwh(solver, peakKwh, ctx.settings.maxShiftableFraction, PeakRate(ctx), OffpeakRate(ctx));
            var figures := LoadShiftFigures(solver, peakKwh, PeakRate(ctx), OffpeakRate(ctx), ctx.settings,
                                            ctx.carbonIntensity);
            LoadShiftRecord(ScenarioOf("load_shift_v1", ctx.buildingId, [f.findingId], figures), ctx, f, peakKwh, x)
  {
    hide PeakRate, OffpeakRate, ShiftedKwh, LoadShiftFigures, Complete, ScenarioOf, Identity, Energies, Band, Round1;
    hide Round2, Percent, ShiftSavings, Solves;
    var x := ShiftedKwh(solver, peakKwh, ctx.settings.maxShiftableFraction, PeakRate(ctx), OffpeakRate(ctx));
    LoadShiftFiguresAre(solver, ctx, peakKwh, x);
    CompleteRecord("load_shift_v1", ctx, [f.findingId], peakKwh, peakKwh - x, Percent(x, peakKwh), ShiftSavings(ctx, x),
                   0.0, 0.7, 1.3);
  }

  lemma ShiftIsCheapest(solver: Solver, ctx: Context, peakKwh: real)
    requires Solves(solver) && peakKwh > 0.0
    ensures CheapestShift(ctx, peakKwh,
                          ShiftedKwh(solver, peakKwh, ctx.settings.maxShiftableFraction, PeakRate(ctx),
                                     OffpeakRate(ctx)))
  {
    hide PeakRate, OffpeakRate, ShiftedKwh, Bill, Solves;
    LoadShiftIsOptimal(solver, peakKwh, ctx.settings.maxShiftableFraction, PeakRate(ctx), OffpeakRate(ctx));
  }

  /** Otherwise a returned scenario is the record of the cheapest shift of the first citing finding's circuit. */
  lemma LoadShiftMeans(solver: Solver, ctx: Context, i: nat)
    requires Solves(solver) && First(ctx.findings, i, CitesTiming)
    requires PeakKwh(CircuitReadings(ctx, ctx.findings[i]), ctx.settings.peakHours) > 0.0
    ensures var r, f := GenerateLoadShift(solver, ctx), ctx.findings[i];
            var peakKwh := PeakKwh(CircuitReadings(ctx, f), ctx.settings.peakHours);
            r.Ok? ==>
              && r.value.Generated?
              && exists x :: CheapestShift(ctx, peakKwh, x)
                             && LoadShiftRecord(r.value.scenario, ctx, f, peakKwh, x)
  {
    var f := ctx.findings[i];
    var peakKwh := PeakKwh(CircuitReadings(ctx, f), ctx.settings.peakHours);
    TimingRules(ctx.findings);
    FirstIsFound(ctx.findings, i, CitesTiming);
    hide LoadShiftFigures, PeakKwh, PeakRate, OffpeakRate, ScenarioOf, LoadShiftRecord;
    hide CheapestShift, ShiftedKwh, Solves;
    LoadShiftFigureRecord(solver, ctx, f, peakKwh);
    ShiftIsCheapest(solver, ctx, peakKwh);
    assert LoadShiftProposal(solver, ctx)
        == Propose([f.findingId], LoadShiftFigures(solver, peakKwh, PeakRate(ctx), OffpeakRate(ctx), ctx.settings,
                                                   ctx.carbonIntensity));
  }

  // ---------------------------------------------------------------- setpoint adjustment

  /** The finding names a circuit declared to be of type hvac. */
  predicate CitesHvac(ctx: Context, f: JustifyingFinding) {
    exists c | c in ctx.circuits :: f.circuit == Some(c.circuitId) && c.circuitType == "hvac"
  }

  lemma HvacFinding(ctx: Context)
    ensures var hvac := set c | c in ctx.circuits && c.circuitType == "hvac" :: c.circuitId;
            FindFinding(ctx.findings, (f: JustifyingFinding) => f.circuit.Some? && f.circuit.value in hvac)
            == FindFinding(ctx.findings, (f: JustifyingFinding) => CitesHvac(ctx, f))
  {
    var hvac := set c | c in ctx.circuits && c.circuitType == "hvac" :: c.circuitId;
    SameFinding(ctx.findings, (f: JustifyingFinding) => f.circuit.Some? && f.circuit.value in hvac,
                (f: JustifyingFinding) => CitesHvac(ctx, f));
  }

  /** Abstains without a finding on an hvac circuit, without readings, and without consumption. */
  lemma SetpointAbstains(solver: Solver, ctx: Context)
    ensures (forall f | f in ctx.findings :: !CitesHvac(ctx, f)) ==>
              Abstains(GenerateSetpoint(solver, ctx), ctx, "setpoint_adjustment_v1", NoJustifyingFinding)
    ensures forall i: nat | First(ctx.findings, i, (f: JustifyingFinding) => CitesHvac(ctx, f)) ::
              var readings := CircuitReadings(ctx, ctx.findings[i]);
              && (readings == [] ==> Abstains(GenerateSetpoint(solver, ctx), ctx, "setpoint_adjustment_v1", NoReadings))
              && (readings != [] && TotalKwh(readings) <= 0.0 ==>
                    Abstains(GenerateSetpoint(solver, ctx), ctx, "setpoint_adjustment_v1", NoConsumption))
  {
    var cites := (f: JustifyingFinding) => CitesHvac(ctx, f);
    HvacFinding(ctx);
    forall i: nat | First(ctx.findings, i, cites)
      ensures FindFinding(ctx.findings, cites) == Some(ctx.findings[i])
    {
      FirstIsFound(ctx.findings, i, cites);
    }
  }

  /** The setpoint moves by the configured ceiling, and not at all when that is negative. */
  function Ceiling(settings: Settings): real {
    if settings.maxSetpointDelta >= 0.0 then settings.maxSetpointDelta else 0.0
  }

  /** A share per degree for so many degrees, but never more than everything. */
  function Capped(perDegree: real, degrees: real): real {
    if perDegree * degrees > 1.0 then 1.0 else perDegree * degrees
  }

  function Remaining(baseline: real, share: real): real { baseline * (1.0 - share) }

  function SetpointSavings(ctx: Context, saved: real, rate: real): real { saved * rate * PerYear(ctx.settings) }

  predicate SetpointRecord(s: Scenario, ctx: Context, f: JustifyingFinding, baseline: real, share: real, rate: real) {
    && Identity(s, ctx, "setpoint_adjustment_v1", [f.findingId])
    && Energies(s, ctx, baseline, Remaining(baseline, share)) && Band(s, share * 100.0, 0.6, 1.4)
    && s.annualSavings == Round2(SetpointSavings(ctx, baseline - Remaining(baseline, share), rate))
    && s.paybackMonths == Round1(0.0)
  }

  function ShareOf(solver: Solver, settings: Settings): real {
    FractionFor(settings.consumptionPerDegree, SetpointDelta(solver, settings.maxSetpointDelta))
  }

  lemma ShareIsCapped(k: real, ceiling: real)
    ensures FractionFor(k, ceiling) == Capped(k, ceiling)
  {
    var p := k * ceiling;
    assert MinReal(p, 1.0) == if p > 1.0 then 1.0 else p;
  }

  lemma SetpointShare(solver: Solver, settings: Settings)
    requires Solves(solver)
    ensures ShareOf(solver, settings) == Capped(settings.consumptionPerDegree, Ceiling(settings))
  {
    SetpointDeltaIs(solver, settings.maxSetpointDelta);
    hide SetpointDelta, Solves, Capped, FractionFor;
    ShareIsCapped(settings.consumptionPerDegree, Ceiling(settings));
  }

  lemma SetpointFiguresAre(solver: Solver, baseline: real, rate: real, settings: Settings, ci: real)
    ensures SetpointFigures(solver, baseline, rate, settings, ci)
            == ReducedBy(baseline, ShareOf(solver, settings), rate, Annualization(settings), ci)
  {
    hide ReducedBy, FractionFor, SetpointDelta, Annualization;
  }

  lemma SetpointProposes(solver: Solver, ctx: Context, f: JustifyingFinding)
    requires FindFinding(ctx.findings, (g: JustifyingFinding) => CitesHvac(ctx, g)) == Some(f)
    requires TotalKwh(CircuitReadings(ctx, f)) > 0.0
    ensures GenerateSetpoint(solver, ctx)
            == OutcomeOf("setpoint_adjustment_v1", ctx.buildingId,
                         Propose([f.findingId], SetpointFigures(solver, TotalKwh(CircuitReadings(ctx, f)),
                                                                BlendedRate(ctx, CircuitReadings(ctx, f)), ctx.settings,
                                                                ctx.carbonIntensity)))
  {
    HvacFinding(ctx);
    hide SetpointFigures, BlendedRate, CitesHvac, OutcomeOf;
  }

  lemma SetpointDeltaIs(solver: Solver, ceiling: real)
    requires Solves(solver)
    ensures SetpointDelta(solver, ceiling) == if ceiling >= 0.0 then ceiling else 0.0
  {
    if ceiling >= 0.0 {
      SetpointMovesToCeiling(solver, ceiling);
    } else {
      var r := solver(-1.0, 0.0, ceiling);
      assert r.success ==> Minimises(-1.0, 0.0, ceiling, r.x);
    }
  }

  lemma ReducedRecord(ctx: Context, f: JustifyingFinding, baseline: real, share: real, rate: real)
    ensures var figures := ReducedBy(baseline, share, rate, Annualization(ctx.settings), ctx.carbonIntensity);
            SetpointRecord(ScenarioOf("setpoint_adjustment_v1", ctx.buildingId, [f.findingId], figures), ctx, f,
                           baseline, share, rate)
  {
    var optimized := Remaining(baseline, share);
    ReducedByIs(baseline, share, rate, ctx);
    hide ReducedBy, Annualization, Complete, ScenarioOf, Identity, Energies, Band, Round1, Round2, SetpointSavings;
    hide Remaining;
    CompleteRecord("setpoint_adjustment_v1", ctx, [f.findingId], baseline, optimized, share * 100.0,
                   SetpointSavings(ctx, baseline - optimized, rate), 0.0, 0.6, 1.4);
  }

  lemma ReducedByIs(baseline: real, share: real, rate: real, ctx: Context)
    ensures var optimized := Remaining(baseline, share);
            ReducedBy(baseline, share, rate, Annualization(ctx.settings), ctx.carbonIntensity)
            == Complete(baseline, optimized, share * 100.0, SetpointSavings(ctx, baseline - optimized, rate), 0.0,
                        ctx.carbonIntensity, 0.6, 1.4)
  {
    var optimized, years := Remaining(baseline, share), Annualization(ctx.settings);
    assert years == PerYear(ctx.settings);
    hide Annualization, PerYear, Complete;
    assert (baseline - optimized) * rate * years == SetpointSavings(ctx, baseline - optimized, rate);
    assert baseline * (1.0 - share) == optimized;
  }

  /** Otherwise a returned scenario is the record of the full setpoint change on the first citing finding's circuit. */
  lemma SetpointMeans(solver: Solver, ctx: Context, i: nat)
    requires Solves(solver) && First(ctx.findings, i, (f: JustifyingFinding) => CitesHvac(ctx, f))
    requires TotalKwh(CircuitReadings(ctx, ctx.findings[i])) > 0.0
    ensures var r, f := GenerateSetpoint(solver, ctx), ctx.findings[i];
            var readings := CircuitReadings(ctx, f);
            var share := Capped(ctx.settings.consumptionPerDegree, Ceiling(ctx.settings));
            r.Ok? ==> r.value.Generated? && SetpointRecord(r.value.scenario, ctx, f, TotalKwh(readings), share,
                                                           BlendedRate(ctx, readings))
  {
    var f := ctx.findings[i];
    var readings := CircuitReadings(ctx, f);
    var share, baseline, rate := ShareOf(solver, ctx.settings), TotalKwh(readings), BlendedRate(ctx, readings);
    var figures := SetpointFigures(solver, baseline, rate, ctx.settings, ctx.carbonIntensity);
    hide *;
    FirstIsFound(ctx.findings, i, (g: JustifyingFinding) => CitesHvac(ctx, g));
    SetpointShare(solver, ctx.settings);
    SetpointProposes(solver, ctx, f);
    SetpointFiguresAre(solver, baseline, rate, ctx.settings, ctx.carbonIntensity);
    ReducedRecord(ctx, f, baseline, share, rate);
    GeneratedRecord("setpoint_adjustment_v1", ctx.buildingId, [f.findingId], figures);
  }

  // ---------------------------------------------------------------- rooftop solar

  /** The gates in order; none of them shut, the model proposes. */
  lemma SolarAbstains(ctx: Context)
    ensures var r := GenerateSolar(ctx);
            var roof := ctx.rooftopArea.Some? && ctx.rooftopArea.value > 0.0;
            var located := ctx.latitude.Some? && ctx.longitude.Some?;
            var total := TotalKwh(AllReadings(ctx.readings));
            && (ctx.findings == [] ==> Abstains(r, ctx, "solar_offset_v1", NoJustifyingFinding))
            && (ctx.findings != [] && !roof ==> Abstains(r, ctx, "solar_offset_v1", NoRooftop))
            && (ctx.findings != [] && roof && !located ==> Abstains(r, ctx, "solar_offset_v1", NoLocation))
            && (ctx.findings != [] && roof && located && ctx.irradiance == None ==>
                  Abstains(r, ctx, "solar_offset_v1", NoIrradiance))
            && (ctx.findings != [] && roof && located && ctx.irradiance != None && total <= 0.0 ==>
                  Abstains(r, ctx, "solar_offset_v1", NoConsumption))
  {
  }

  /** The months the saved bill needs to pay for the panels; 9999 if it saves nothing. */
  function MonthsToPay(capex: real, savings: real): real {
    if savings > 0.0 then capex / (savings / 12.0) else 9999.0
  }

  function Bought(baseline: real, generation: real): real {
    if generation < baseline then baseline - generation else 0.0
  }

  function SavedBill(saved: real, rate: real): real { saved * rate }

  /** A year's consumption, what is left of it to buy, and how long the difference takes to pay for the panels. */
  predicate SolarRecord(s: Scenario, ctx: Context, baseline: real, optimized: real, rate: real, capex: real)
    requires baseline > 0.0
  {
    var savings := SavedBill(baseline - optimized, rate);
    && Identity(s, ctx, "solar_offset_v1", FindingIds(ctx.findings))
    && Energies(s, ctx, baseline, optimized) && Band(s, Percent(baseline - optimized, baseline), 0.75, 1.25)
    && s.annualSavings == Round2(savings) && s.paybackMonths == Round1(MonthsToPay(capex, savings))
  }

  lemma FindingIdsAre(findings: seq<JustifyingFinding>)
    ensures |FindingIds(findings)| == |findings|
    ensures forall i | 0 <= i < |findings| :: FindingIds(findings)[i] == findings[i].findingId
  {
  }

  lemma SolarFigureRecord(ctx: Context, baseline: real, generation: real, rate: real, capex: real)
    requires baseline > 0.0
    ensures var figures := SolarFigures(baseline, generation, rate, capex, ctx.carbonIntensity);
            SolarRecord(ScenarioOf("solar_offset_v1", ctx.buildingId, FindingIds(ctx.findings), figures), ctx, baseline,
                        Bought(baseline, generation), rate, capex)
  {
    var optimized := Bought(baseline, generation);
    SolarFiguresAre(baseline, generation, rate, capex, ctx.carbonIntensity);
    hide SolarFigures, Complete, ScenarioOf, Identity, Energies, Band, Round1, Round2, Bought, SavedBill, MonthsToPay;
    hide Percent;
    var savings := SavedBill(baseline - optimized, rate);
    CompleteRecord("solar_offset_v1", ctx, FindingIds(ctx.findings), baseline, optimized,
                   Percent(baseline - optimized, baseline), savings, MonthsToPay(capex, savings), 0.75, 1.25);
  }

  lemma SolarFiguresAre(baseline: real, generation: real, rate: real, capex: real, ci: real)
    requires baseline > 0.0
    ensures var optimized := Bought(baseline, generation);
            var savings := SavedBill(baseline - optimized, rate);
            SolarFigures(baseline, generation, rate, capex, ci)
            == Complete(baseline, optimized, Percent(baseline - optimized, baseline), savings,
                        MonthsToPay(capex, savings), ci, 0.75, 1.25)
  {
    var optimized := Bought(baseline, generation);
    assert MaxReal(baseline - generation, 0.0) == optimized;
    var savings := SavedBill(baseline - optimized, rate);
    assert (baseline - optimized) * rate == savings;
    assert (baseline - optimized) / baseline * 100.0 == Percent(baseline - optimized, baseline);
    assert (if savings > 0.0 then capex / (savings / 12.0) else 9999.0) == MonthsToPay(capex, savings);
    hide Complete, Bought, MaxReal;
  }

  /** A year's generation of the roof, and what its panels cost. */
  function RoofYield(area: real, irradiance: real, settings: Settings): real {
    area * irradiance * settings.panelEfficiency * settings.performanceRatio * 365.0
  }

  function RoofCost(area: real, settings: Settings): real {
    area * settings.capacityDensity * settings.capexPerKw
  }

  /** Otherwise a returned scenario is the record of the roof's yield set against a year's consumption. */
  lemma SolarMeans(ctx: Context)
    requires ctx.findings != [] && ctx.rooftopArea.Some? && ctx.rooftopArea.value > 0.0
    requires ctx.latitude.Some? && ctx.longitude.Some? && ctx.irradiance.Some?
    requires TotalKwh(AllReadings(ctx.readings)) > 0.0
    ensures var r, readings, area := GenerateSolar(ctx), AllReadings(ctx.readings), ctx.rooftopArea.value;
            var baseline := TotalKwh(readings) * PerYear(ctx.settings);
            var generation := RoofYield(area, ctx.irradiance.value, ctx.settings);
            baseline > 0.0 &&
            (r.Ok? ==> r.value.Generated? &&
                       SolarRecord(r.value.scenario, ctx, baseline, Bought(baseline, generation),
                                   BlendedRate(ctx, readings), RoofCost(area, ctx.settings)))
  {
    hide *;
    var readings, area, irradiance := AllReadings(ctx.readings), ctx.rooftopArea.value, ctx.irradiance.value;
    SolarInputsAre(ctx, readings);
    var baseline := TotalKwh(readings) * PerYear(ctx.settings);
    var figures := SolarFiguresOf(SolarInputsOf(ctx, readings));
    SolarProposes(ctx);
    SolarInputsFigures(ctx, readings, baseline);
    SolarFigureRecord(ctx, baseline, RoofYield(area, irradiance, ctx.settings), BlendedRate(ctx, readings),
                      RoofCost(area, ctx.settings));
    GeneratedRecord("solar_offset_v1", ctx.buildingId, FindingIds(ctx.findings), figures);
  }

  lemma SolarInputsFigures(ctx: Context, readings: seq<Reading>, baseline: real)
    requires TotalKwh(readings) > 0.0 && ctx.rooftopArea.Some? && ctx.irradiance.Some?
    requires baseline == TotalKwh(readings) * PerYear(ctx.settings) && baseline > 0.0
    ensures SolarFiguresOf(SolarInputsOf(ctx, readings))
            == SolarFigures(baseline, RoofYield(ctx.rooftopArea.value, ctx.irradiance.value, ctx.settings),
                            BlendedRate(ctx, readings), RoofCost(ctx.rooftopArea.value, ctx.settings),
                            ctx.carbonIntensity)
  {
    SolarInputsAre(ctx, readings);
    hide SolarInputsOf, SolarFigures, RoofYield, RoofCost, BlendedRate, PerYear, TotalKwh;
  }

  lemma SolarProposes(ctx: Context)
    requires ctx.findings != [] && ctx.rooftopArea.Some? && ctx.rooftopArea.value > 0.0
    requires ctx.latitude.Some? && ctx.longitude.Some? && ctx.irradiance.Some?
    requires TotalKwh(AllReadings(ctx.readings)) > 0.0
    ensures GenerateSolar(ctx)
            == OutcomeOf("solar_offset_v1", ctx.buildingId,
                         Propose(FindingIds(ctx.findings),
                                 SolarFiguresOf(SolarInputsOf(ctx, AllReadings(ctx.readings)))))
  {
    hide SolarInputsOf, SolarFiguresOf, OutcomeOf, TotalKwh;
  }

  lemma SolarInputsAre(ctx: Context, readings: seq<Reading>)
    requires TotalKwh(readings) > 0.0 && ctx.rooftopArea.Some? && ctx.irradiance.Some?
    ensures SolarInputsOf(ctx, readings)
            == SolarInputs(TotalKwh(readings) * PerYear(ctx.settings),
                           RoofYield(ctx.rooftopArea.value, ctx.irradiance.value, ctx.settings),
                           BlendedRate(ctx, readings), RoofCost(ctx.rooftopArea.value, ctx.settings),
                           ctx.carbonIntensity)
    ensures TotalKwh(readings) * PerYear(ctx.settings) > 0.0
  {
    assert Annualization(ctx.settings) == PerYear(ctx.settings);
    hide TotalKwh, BlendedRate, Annualization, PerYear;
    PositiveProduct(TotalKwh(readings), Annualization(ctx.settings));
  }
}
