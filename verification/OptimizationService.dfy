/** The optimization service: registry, bounds enforcement with incidents, and portfolio rollups. */
module OptimizationService {
  import opened Wrappers
  import opened OptimizationModels
  import opened Rounding
  import opened Statistics
  import Bounds
  import Scenarios

  /** A scenario model as the service sees it. */
  datatype Model = Model(name: string, version: nat, generate: Context -> Result<Outcome, ServiceError>)

  // ---------------------------------------------------------------- the registry

  /** Registered models in registration order; names are unique. */
  class ScenarioRegistry {
    var models: seq<Model>

    ghost predicate Valid()
      reads this
    {
      forall i, j | 0 <= i < j < |models| :: models[i].name != models[j].name
    }

    constructor ()
      ensures Valid() && models == []
    {
      models := [];
    }

    /** False is the duplicate-name error, which leaves the catalogue as it was. */
    method Register(model: Model) returns (ok: bool)
      requires Valid()
      modifies this
      ensures Valid()
      ensures ok <==> forall m | m in old(models) :: m.name != model.name
      ensures models == if ok then old(models) + [model] else old(models)
    {
      var existing := Get(model.name);
      ok := existing.None?;
      if ok {
        models := models + [model];
      }
    }

    method Get(name: string) returns (found: Option<Model>)
      requires Valid()
      ensures found.Some? ==> found.value in models && found.value.name == name
      ensures found.None? <==> forall m | m in models :: m.name != name
    {
      for i := 0 to |models|
        invariant forall j | 0 <= j < i :: models[j].name != name
      {
        if models[i].name == name {
          return Some(models[i]);
        }
      }
      return None;
    }
  }

  function LoadShiftModel(solver: Scenarios.Solver): Model {
    Model(Scenarios.LOAD_SHIFT, 1, (ctx: Context) => Scenarios.GenerateLoadShift(solver, ctx))
  }

  function SetpointModel(solver: Scenarios.Solver): Model {
    Model(Scenarios.SETPOINT, 1, (ctx: Context) => Scenarios.GenerateSetpoint(solver, ctx))
  }

  function SolarModel(): Model {
    Model(Scenarios.SOLAR, 1, (ctx: Context) => Scenarios.GenerateSolar(ctx))
  }

  lemma CatalogueNamesDiffer()
    ensures Scenarios.LOAD_SHIFT != Scenarios.SETPOINT
    ensures Scenarios.LOAD_SHIFT != Scenarios.SOLAR
    ensures Scenarios.SETPOINT != Scenarios.SOLAR
  {
    assert Scenarios.LOAD_SHIFT[0] != Scenarios.SETPOINT[0];
    assert Scenarios.LOAD_SHIFT[0] != Scenarios.SOLAR[0];
    assert Scenarios.SETPOINT[1] != Scenarios.SOLAR[1];
  }

  /** The production catalogue registers without a name clash. */
  method DefaultRegistry(solver: Scenarios.Solver) returns (registry: ScenarioRegistry)
    ensures fresh(registry) && registry.Valid()
    ensures registry.models == [LoadShiftModel(solver), SetpointModel(solver), SolarModel()]
    ensures var ms := registry.models;
            && ms[0].name == "load_shift_v1" && ms[1].name == "setpoint_adjustment_v1"
            && ms[2].name == "solar_offset_v1"
            && ms[0].version == ms[1].version == ms[2].version == 1
            && forall ctx :: && ms[0].generate(ctx) == Scenarios.GenerateLoadShift(solver, ctx)
                             && ms[1].generate(ctx) == Scenarios.GenerateSetpoint(solver, ctx)
                             && ms[2].generate(ctx) == Scenarios.GenerateSolar(ctx)
  {
    CatalogueNamesDiffer();
    registry := RegisterThree(LoadShiftModel(solver), SetpointModel(solver), SolarModel());
  }

  method RegisterThree(a: Model, b: Model, c: Model) returns (registry: ScenarioRegistry)
    requires a.name != b.name && a.name != c.name && b.name != c.name
    ensures fresh(registry) && registry.Valid() && registry.models == [a, b, c]
  {
    registry := new ScenarioRegistry();
    var first := registry.Register(a);
    assert registry.models == [a];
    var second := registry.Register(b);
    assert registry.models == [a, b];
    var third := registry.Register(c);
  }

  // ---------------------------------------------------------------- what one building's run must do

  datatype Incident = Incident(tenantId: Id, buildingId: Id, scenarioModel: string,
                               incidentType: Bounds.Violation, violations: seq<Bounds.Violation>)

  /** The incident a rejected scenario leaves: all its violations in check order, typed by the first. */
  ghost predicate Reports(incident: Incident, tenantId: Id, s: Scenario, settings: Settings) {
    && incident.tenantId == tenantId
    && incident.buildingId == s.buildingId
    && incident.scenarioModel == s.scenarioModel
    && Bounds.AreViolations(incident.violations, s, settings)
    && incident.violations != []
    && incident.incidentType == incident.violations[0]
  }

  /** A scenario that fails the bounds is replaced, never altered. */
  ghost function Enforced(o: Outcome, settings: Settings): Outcome {
    if o.Generated? && !Bounds.Passes(o.scenario, settings) then
      Unavailable(o.scenario.scenarioModel, o.scenario.modelVersion, o.scenario.buildingId, Rejected)
    else o
  }

  /** How many models run before one raises. */
  function Completed(models: seq<Model>, ctx: Context): (n: nat)
    ensures n <= |models|
    ensures forall i | 0 <= i < n :: models[i].generate(ctx).Ok?
    ensures n < |models| ==> models[n].generate(ctx).Err?
  {
    if models == [] || models[0].generate(ctx).Err? then 0 else 1 + Completed(models[1..], ctx)
  }

  /** The scenarios among the first n models' results that fail the bounds, in order. */
  ghost function RejectedScenarios(models: seq<Model>, ctx: Context, settings: Settings, n: nat): seq<Scenario>
    requires n <= |models|
  {
    if n == 0 then []
    else
      var r := models[n - 1].generate(ctx);
      RejectedScenarios(models, ctx, settings, n - 1) +
        (if r.Ok? && r.value.Generated? && !Bounds.Passes(r.value.scenario, settings) then [r.value.scenario] else [])
  }

  /** The incidents record the given scenarios one for one. */
  ghost predicate AllReported(incidents: seq<Incident>, tenantId: Id, rejected: seq<Scenario>, settings: Settings) {
    |incidents| == |rejected| &&
      forall i | 0 <= i < |rejected| :: Reports(incidents[i], tenantId, rejected[i], settings)
  }

  /** The log after judging one outcome: one more entry for a rejection, otherwise unchanged. */
  ghost predicate Records(before: seq<Incident>, after: seq<Incident>, tenantId: Id, o: Outcome, settings: Settings) {
    if o.Generated? && !Bounds.Passes(o.scenario, settings) then
      |after| == |before| + 1 && after[..|before|] == before && Reports(after[|before|], tenantId, o.scenario, settings)
    else after == before
  }

  /** The log since start records exactly the rejections of the first n models. */
  ghost predicate Logged(start: seq<Incident>, log: seq<Incident>, tenantId: Id, models: seq<Model>, ctx: Context,
                         settings: Settings, n: nat)
    requires n <= |models|
  {
    && |log| >= |start| && log[..|start|] == start
    && AllReported(log[|start|..], tenantId, RejectedScenarios(models, ctx, settings, n), settings)
  }

  lemma LogStep(start: seq<Incident>, before: seq<Incident>, after: seq<Incident>, tenantId: Id, models: seq<Model>,
                ctx: Context, settings: Settings, n: nat)
    requires n < |models| && Logged(start, before, tenantId, models, ctx, settings, n)
    requires models[n].generate(ctx).Ok? && Records(before, after, tenantId, models[n].generate(ctx).value, settings)
    ensures Logged(start, after, tenantId, models, ctx, settings, n + 1)
  {
    if after != before {
      assert after[..|start|] == before[..|start|];
      assert after[|start|..] == before[|start|..] + [after[|before|]];
    }
  }

  ghost predicate AllEnforced(outcomes: seq<Outcome>, models: seq<Model>, ctx: Context, settings: Settings)
    requires |outcomes| <= |models|
  {
    forall i | 0 <= i < |outcomes| ::
      models[i].generate(ctx).Ok? && outcomes[i] == Enforced(models[i].generate(ctx).value, settings)
  }

  // ---------------------------------------------------------------- rollups

  datatype Rollup = Rollup(
    scenarioModel: string,
    modelVersion: nat,
    contributing: seq<Id>,
    totalBaselineKwh: real,
    totalOptimizedKwh: real,
    totalBaselineEmissions: real,
    totalOptimizedEmissions: real,
    pctReduction: real,
    totalSavings: real)

  predicate RollupValid(r: Rollup) {
    && r.modelVersion >= 1
    && r.contributing != []
    && r.totalBaselineKwh >= 0.0 && r.totalOptimizedKwh >= 0.0
    && r.totalBaselineEmissions >= 0.0 && r.totalOptimizedEmissions >= 0.0
    && 0.0 <= r.pctReduction <= 100.0
    && r.totalSavings >= 0.0
  }

  type Contribution = (Id, ValidScenario)

  function Total(cs: seq<Contribution>, f: Scenario -> real): real {
    if cs == [] then 0.0 else f(cs[0].1) + Total(cs[1..], f)
  }

  function Baseline(s: Scenario): real { s.baselineKwh }
  function Optimized(s: Scenario): real { s.optimizedKwh }
  function BaselineEmissions(s: Scenario): real { s.baselineEmissions }
  function OptimizedEmissions(s: Scenario): real { s.optimizedEmissions }
  function Savings(s: Scenario): real { s.annualSavings }

  function PctOfTotals(baseline: real, optimized: real): real {
    if baseline > 0.0 then Bounds.ImpliedPct(baseline, optimized) else 0.0
  }

  function RollupOf(name: string, version: nat, cs: seq<Contribution>): Rollup {
    var baseline, optimized := Total(cs, Baseline), Total(cs, Optimized);
    Rollup(name, version, seq(|cs|, i requires 0 <= i < |cs| => cs[i].0),
           Round2(baseline), Round2(optimized),
           Round2(Total(cs, BaselineEmissions)), Round2(Total(cs, OptimizedEmissions)),
           Round2(PctOfTotals(baseline, optimized)), Round2(Total(cs, Savings)))
  }

  /** Contributions that went through the bounds check. */
  ghost predicate AllPass(cs: seq<Contribution>, settings: Settings) {
    forall c | c in cs :: Bounds.Passes(c.1, settings)
  }

  lemma {:induction false} TotalMonotone(cs: seq<Contribution>, f: Scenario -> real, g: Scenario -> real)
    requires forall c | c in cs :: f(c.1) <= g(c.1)
    ensures Total(cs, f) <= Total(cs, g)
  {
    if cs != [] {
      TotalMonotone(cs[1..], f, g);
    }
  }

  lemma {:induction false} TotalNonNegative(cs: seq<Contribution>, f: Scenario -> real)
    requires forall c | c in cs :: f(c.1) >= 0.0
    ensures Total(cs, f) >= 0.0
  {
    if cs != [] {
      TotalNonNegative(cs[1..], f);
    }
  }

  /** The share a scenario keeps, times its baseline, is its optimized energy; zero baselines keep nothing. */
  predicate KeepsAtMost(s: Scenario, share: real) { s.optimizedKwh <= share * s.baselineKwh }

  predicate KeepsAtLeast(s: Scenario, share: real) { s.optimizedKwh >= share * s.baselineKwh }

  lemma {:induction false} TotalsKeepAtMost(cs: seq<Contribution>, share: real)
    requires forall c | c in cs :: KeepsAtMost(c.1, share)
    ensures Total(cs, Optimized) <= share * Total(cs, Baseline)
  {
    if cs != [] {
      TotalsKeepAtMost(cs[1..], share);
      assert KeepsAtMost(cs[0].1, share);
      assert share * (Baseline(cs[0].1) + Total(cs[1..], Baseline)) == share * Baseline(cs[0].1) +
             share * Total(cs[1..], Baseline);
    }
  }

  lemma {:induction false} TotalsKeepAtLeast(cs: seq<Contribution>, share: real)
    requires forall c | c in cs :: KeepsAtLeast(c.1, share)
    ensures Total(cs, Optimized) >= share * Total(cs, Baseline)
  {
    if cs != [] {
      TotalsKeepAtLeast(cs[1..], share);
      assert KeepsAtLeast(cs[0].1, share);
      assert share * (Baseline(cs[0].1) + Total(cs[1..], Baseline)) == share * Baseline(cs[0].1) +
             share * Total(cs[1..], Baseline);
    }
  }

  function Implied(s: Scenario): real
    requires s.baselineKwh > 0.0
  {
    Bounds.ImpliedPct(s.baselineKwh, s.optimizedKwh)
  }

  /** Some contribution with a positive baseline whose implied reduction is least, and one whose is greatest. */
  lemma {:induction false} ExtremeContributions(cs: seq<Contribution>)
    returns (least: Contribution, greatest: Contribution)
    requires exists c :: c in cs && c.1.baselineKwh > 0.0
    ensures least in cs && least.1.baselineKwh > 0.0 && greatest in cs && greatest.1.baselineKwh > 0.0
    ensures forall c | c in cs && c.1.baselineKwh > 0.0 :: Implied(least.1) <= Implied(c.1) <= Implied(greatest.1)
  {
    var head := cs[0];
    if exists c :: c in cs[1..] && c.1.baselineKwh > 0.0 {
      least, greatest := ExtremeContributions(cs[1..]);
      if head.1.baselineKwh > 0.0 {
        least := if Implied(head.1) < Implied(least.1) then head else least;
        greatest := if Implied(head.1) > Implied(greatest.1) then head else greatest;
      }
    } else {
      assert forall c | c in cs :: c == head || c in cs[1..];
      least, greatest := head, head;
    }
  }

  lemma KeptShare(s: Scenario, pct: real)
    requires s.baselineKwh > 0.0
    ensures pct <= Implied(s) <==> KeepsAtMost(s, 1.0 - pct / 100.0)
    ensures pct >= Implied(s) <==> KeepsAtLeast(s, 1.0 - pct / 100.0)
  {
    var q := s.optimizedKwh / s.baselineKwh;
    Bounds.PctOfShare(s.baselineKwh, s.optimizedKwh);
    QuotientTimes(s.optimizedKwh, s.baselineKwh);
    ScaledOrder(1.0 - pct / 100.0, q, s.baselineKwh);
    ScaledOrder(q, 1.0 - pct / 100.0, s.baselineKwh);
  }

  lemma {:induction false} NothingFromNothing(cs: seq<Contribution>)
    requires forall c | c in cs :: c.1.baselineKwh == 0.0
    ensures Total(cs, Baseline) == 0.0
  {
    if cs != [] {
      NothingFromNothing(cs[1..]);
    }
  }

  /** The portfolio's unrounded reduction lies between the least and greatest reduction of its contributors. */
  lemma RollupIsBetweenContributors(cs: seq<Contribution>, settings: Settings)
    returns (least: Contribution, greatest: Contribution)
    requires AllPass(cs, settings) && Total(cs, Baseline) > 0.0
    ensures least in cs && least.1.baselineKwh > 0.0 && greatest in cs && greatest.1.baselineKwh > 0.0
    ensures Implied(least.1) <= PctOfTotals(Total(cs, Baseline), Total(cs, Optimized)) <= Implied(greatest.1)
  {
    if forall c | c in cs :: c.1.baselineKwh == 0.0 {
      NothingFromNothing(cs);
    }
    least, greatest := ExtremeContributions(cs);
    var low, high := Implied(least.1), Implied(greatest.1);
    KeptShareBetween(cs, settings, low, high, 1.0 - low / 100.0, 1.0 - high / 100.0);
    ShareAsPct(Total(cs, Baseline), Total(cs, Optimized), low, high);
  }

  lemma KeptShareBetween(cs: seq<Contribution>, settings: Settings, low: real, high: real, most: real, fewest: real)
    requires AllPass(cs, settings) && Total(cs, Baseline) > 0.0
    requires most == 1.0 - low / 100.0 && fewest == 1.0 - high / 100.0
    requires forall c | c in cs && c.1.baselineKwh > 0.0 :: low <= Implied(c.1) <= high
    ensures fewest <= Total(cs, Optimized) / Total(cs, Baseline) <= most
  {
    forall c | c in cs ensures KeepsAtMost(c.1, most) && KeepsAtLeast(c.1, fewest) {
      KeepsBetween(c.1, settings, low, high);
    }
    ShareAtMost(cs, most);
    ShareAtLeast(cs, fewest);
  }

  lemma ShareAtMost(cs: seq<Contribution>, most: real)
    requires Total(cs, Baseline) > 0.0 && forall c | c in cs :: KeepsAtMost(c.1, most)
    ensures Total(cs, Optimized) / Total(cs, Baseline) <= most
  {
    TotalsKeepAtMost(cs, most);
    QuotientAtMost(Total(cs, Optimized), Total(cs, Baseline), most);
  }

  lemma ShareAtLeast(cs: seq<Contribution>, fewest: real)
    requires Total(cs, Baseline) > 0.0 && forall c | c in cs :: KeepsAtLeast(c.1, fewest)
    ensures fewest <= Total(cs, Optimized) / Total(cs, Baseline)
  {
    TotalsKeepAtLeast(cs, fewest);
    QuotientAtLeast(Total(cs, Optimized), Total(cs, Baseline), fewest);
  }

  lemma KeepsBetween(s: ValidScenario, settings: Settings, low: real, high: real)
    requires Bounds.Passes(s, settings) && (s.baselineKwh > 0.0 ==> low <= Implied(s) <= high)
    ensures KeepsAtMost(s, 1.0 - low / 100.0) && KeepsAtLeast(s, 1.0 - high / 100.0)
  {
    if s.baselineKwh > 0.0 {
      KeptShare(s, low);
      KeptShare(s, high);
    } else {
      Bounds.PassesByParts(s, settings);
      assert s.optimizedKwh == 0.0 && s.baselineKwh == 0.0;
    }
  }

  lemma QuotientAtMost(x: real, k: real, high: real)
    requires k > 0.0 && x <= high * k
    ensures x / k <= high
  {
    QuotientTimes(x, k);
    ScaledOrder(high, x / k, k);
  }

  lemma QuotientAtLeast(x: real, k: real, low: real)
    requires k > 0.0 && x >= low * k
    ensures x / k >= low
  {
    QuotientTimes(x, k);
    ScaledOrder(x / k, low, k);
  }

  lemma ShareAsPct(baseline: real, optimized: real, low: real, high: real)
    requires baseline > 0.0 && 1.0 - high / 100.0 <= optimized / baseline <= 1.0 - low / 100.0
    ensures low <= PctOfTotals(baseline, optimized) <= high
  {
    Bounds.PctOfShare(baseline, optimized);
  }

  /** A rollup never raises, never shows an increase, and its percentage is one. */
  lemma RollupNeverIncreases(name: string, version: nat, cs: seq<Contribution>, settings: Settings)
    requires AllPass(cs, settings) && cs != [] && version >= 1
    ensures Harmless(RollupOf(name, version, cs))
  {
    forall c | c in cs ensures Optimized(c.1) <= Baseline(c.1) && OptimizedEmissions(c.1) <= BaselineEmissions(c.1) {
      Bounds.PassesByParts(c.1, settings);
    }
    TotalMonotone(cs, Optimized, Baseline);
    TotalMonotone(cs, OptimizedEmissions, BaselineEmissions);
    TotalNonNegative(cs, Optimized);
    TotalNonNegative(cs, OptimizedEmissions);
    TotalNonNegative(cs, Savings);
    RoundedTotals(name, version, cs, Total(cs, Baseline), Total(cs, Optimized), Total(cs, BaselineEmissions),
                  Total(cs, OptimizedEmissions), Total(cs, Savings));
  }

  lemma RoundedTotals(name: string, version: nat, cs: seq<Contribution>, b: real, o: real, be: real, oe: real,
                      savings: real)
    requires cs != [] && version >= 1 && 0.0 <= o <= b && 0.0 <= oe <= be && 0.0 <= savings
    requires b == Total(cs, Baseline) && o == Total(cs, Optimized)
    requires be == Total(cs, BaselineEmissions) && oe == Total(cs, OptimizedEmissions) && savings == Total(cs, Savings)
    ensures Harmless(RollupOf(name, version, cs))
  {
    PctInRange(b, o);
    Round2Between(PctOfTotals(b, o), 0, 10000);
    Round2Monotone(o, b);
    Round2Monotone(oe, be);
    Round2Sign(o);
    Round2Sign(oe);
    Round2Sign(savings);
  }

  lemma PctInRange(b: real, o: real)
    requires 0.0 <= o <= b
    ensures 0.0 <= PctOfTotals(b, o) <= 100.0
  {
    if b > 0.0 {
      Bounds.TruthfulPct(b, o, Bounds.ImpliedPct(b, o));
    }
  }

  // ---------------------------------------------------------------- the service

  datatype Portfolio = Portfolio(buildingIds: seq<Id>, perBuilding: seq<(Id, seq<Outcome>)>, rollups: seq<Rollup>)

  /** Assignment to an insertion-ordered dictionary. */
  function Put(d: seq<(Id, seq<Outcome>)>, key: Id, value: seq<Outcome>): seq<(Id, seq<Outcome>)> {
    if d == [] then [(key, value)]
    else if d[0].0 == key then [(key, value)] + d[1..]
    else [d[0]] + Put(d[1..], key, value)
  }

  /** A building all of whose models return an outcome. */
  predicate Generates(models: seq<Model>, contexts: map<Id, Context>, id: Id) {
    id in contexts && Completed(models, contexts[id]) == |models|
  }

  /** What one building's run returns when no model raises: one judged outcome per model, in order. */
  ghost function OutcomesOf(models: seq<Model>, ctx: Context, settings: Settings): (outcomes: seq<Outcome>)
    requires Completed(models, ctx) == |models|
    ensures |outcomes| == |models| && AllEnforced(outcomes, models, ctx, settings)
  {
    seq(|models|, i requires 0 <= i < |models| => Enforced(models[i].generate(ctx).value, settings))
  }

  /** The dictionary the portfolio loop builds; a repeated building id only rewrites its entry. */
  ghost function PerBuildingOf(models: seq<Model>, contexts: map<Id, Context>, settings: Settings, ids: seq<Id>)
    : seq<(Id, seq<Outcome>)>
    requires forall id | id in ids :: Generates(models, contexts, id)
  {
    if ids == [] then []
    else
      var last := ids[|ids| - 1];
      assert Generates(models, contexts, last);
      Put(PerBuildingOf(models, contexts, settings, ids[..|ids| - 1]), last,
          OutcomesOf(models, contexts[last], settings))
  }

  lemma {:induction false} PutPasses(d: seq<(Id, seq<Outcome>)>, key: Id, value: seq<Outcome>, settings: Settings)
    requires OutcomesPass(value, settings) && forall entry | entry in d :: OutcomesPass(entry.1, settings)
    ensures forall entry | entry in Put(d, key, value) :: OutcomesPass(entry.1, settings)
  {
    if d != [] && d[0].0 != key {
      PutPasses(d[1..], key, value, settings);
    }
  }

  function FromOutcomes(id: Id, outcomes: seq<Outcome>, name: string): seq<Contribution> {
    if outcomes == [] then []
    else
      (if outcomes[0].Generated? &&
       outcomes[0].scenario.scenarioModel == name then [(id, outcomes[0].scenario)] else [])
      + FromOutcomes(id, outcomes[1..], name)
  }

  /** The comprehension over all buildings and outcomes. */
  function Contributing(perBuilding: seq<(Id, seq<Outcome>)>, name: string): seq<Contribution> {
    if perBuilding == [] then []
    else FromOutcomes(perBuilding[0].0, perBuilding[0].1, name) + Contributing(perBuilding[1..], name)
  }

  /** No returned scenario fails the bounds. */
  ghost predicate OutcomesPass(outcomes: seq<Outcome>, settings: Settings) {
    forall o | o in outcomes && o.Generated? :: Bounds.Passes(o.scenario, settings)
  }

  lemma {:induction false} FromOutcomesPass(id: Id, outcomes: seq<Outcome>, name: string, settings: Settings)
    requires OutcomesPass(outcomes, settings)
    ensures AllPass(FromOutcomes(id, outcomes, name), settings)
  {
    if outcomes != [] {
      FromOutcomesPass(id, outcomes[1..], name, settings);
    }
  }

  lemma {:induction false} ContributingPass(perBuilding: seq<(Id, seq<Outcome>)>, name: string, settings: Settings)
    requires forall entry | entry in perBuilding :: OutcomesPass(entry.1, settings)
    ensures AllPass(Contributing(perBuilding, name), settings)
  {
    if perBuilding != [] {
      FromOutcomesPass(perBuilding[0].0, perBuilding[0].1, name, settings);
      ContributingPass(perBuilding[1..], name, settings);
    }
  }

  lemma EnforcedPass(outcomes: seq<Outcome>, models: seq<Model>, ctx: Context, settings: Settings)
    requires |outcomes| <= |models| && AllEnforced(outcomes, models, ctx, settings)
    ensures OutcomesPass(outcomes, settings)
  {
    forall o | o in outcomes && o.Generated? ensures Bounds.Passes(o.scenario, settings) {
      var i :| 0 <= i < |outcomes| && outcomes[i] == o;
      assert outcomes[i] == Enforced(models[i].generate(ctx).value, settings);
    }
  }

  class OptimizationService {
    const registry: ScenarioRegistry
    const settings: Settings
    var incidents: seq<Incident>

    constructor (registry: ScenarioRegistry, settings: Settings)
      ensures this.registry == registry && this.settings == settings && incidents == []
    {
      this.registry, this.settings, this.incidents := registry, settings, [];
    }

    /** Judge one scenario: return it unchanged, or record an incident and return its replacement. */
    method EnforceBounds(tenantId: Id, scenario: ValidScenario) returns (outcome: Outcome)
      modifies this`incidents
      ensures outcome == Enforced(Generated(scenario), settings)
      ensures Records(old(incidents), incidents, tenantId, Generated(scenario), settings)
    {
      var violations := Bounds.ValidateScenario(scenario, settings);
      if violations == [] {
        assert forall v :: Bounds.Violates(scenario, settings, v) ==> v in violations;
        return Generated(scenario);
      }
      assert violations[0] in violations && Bounds.Violates(scenario, settings, violations[0]);
      incidents := incidents +
        [Incident(tenantId, scenario.buildingId, scenario.scenarioModel, violations[0], violations)];
      outcome := Unavailable(scenario.scenarioModel, scenario.modelVersion, scenario.buildingId, Rejected);
    }

    /** One outcome per registered model in order; every rejection, and nothing else, leaves one incident. */
    method GenerateScenarios(tenantId: Id, contexts: map<Id, Context>, buildingId: Id)
      returns (r: Result<seq<Outcome>, ServiceError>)
      requires registry.Valid()
      modifies this`incidents
      ensures buildingId !in contexts ==> r == Err(BuildingNotFound) && incidents == old(incidents)
      ensures buildingId in contexts ==>
                var ctx, n := contexts[buildingId], Completed(registry.models, contexts[buildingId]);
                && (r.Ok? <==> n == |registry.models|)
                && (r.Ok? ==> r.value == OutcomesOf(registry.models, ctx, settings) && OutcomesPass(r.value, settings))
                && Logged(old(incidents), incidents, tenantId, registry.models, ctx, settings, n)
    {
      if buildingId !in contexts {
        return Err(BuildingNotFound);
      }
      var ctx := contexts[buildingId];
      var outcomes: seq<Outcome> := [];
      ghost var start := incidents;
      for i := 0 to |registry.models|
        invariant |outcomes| == i <= Completed(registry.models, ctx)
        invariant AllEnforced(outcomes, registry.models, ctx, settings)
        invariant Logged(start, incidents, tenantId, registry.models, ctx, settings, i)
      {
        var generated := registry.models[i].generate(ctx);
        if generated.Err? {
          return Err(generated.error);
        }
        ghost var before := incidents;
        var outcome := generated.value;
        if outcome.Generated? {
          outcome := EnforceBounds(tenantId, outcome.scenario);
        }
        LogStep(start, before, incidents, tenantId, registry.models, ctx, settings, i);
        outcomes := outcomes + [outcome];
      }
      EnforcedPass(outcomes, registry.models, ctx, settings);
      return Ok(outcomes);
    }

    /**
     Every building's outcomes, keyed by building; raises with the first building that does. The incidents added are
     exactly the rejections of the buildings reached, in order.
     */
    method GeneratePerBuilding(tenantId: Id, contexts: map<Id, Context>, buildingIds: seq<Id>)
      returns (r: Result<seq<(Id, seq<Outcome>)>, ServiceError>)
      requires registry.Valid()
      modifies this`incidents
      ensures r.Ok? <==> forall id | id in buildingIds :: Generates(registry.models, contexts, id)
      ensures r.Ok? ==> r.value == PerBuildingOf(registry.models, contexts, settings, buildingIds)
      ensures r.Ok? ==> forall entry | entry in r.value :: OutcomesPass(entry.1, settings)
      ensures LoggedOver(old(incidents), incidents, tenantId, registry.models, contexts, settings,
                         buildingIds[..Reached(registry.models, contexts, buildingIds)])
    {
      var perBuilding: seq<(Id, seq<Outcome>)> := [];
      ghost var start := incidents;
      NothingGenerated(start, tenantId, registry.models, contexts, settings, buildingIds);
      hide Generates, PerBuildingOf, OutcomesPass, LoggedOver;
      for i := 0 to |buildingIds|
        invariant forall id | id in buildingIds[..i] :: Generates(registry.models, contexts, id)
        invariant perBuilding == PerBuildingOf(registry.models, contexts, settings, buildingIds[..i])
        invariant forall entry | entry in perBuilding :: OutcomesPass(entry.1, settings)
        invariant LoggedOver(start, incidents, tenantId, registry.models, contexts, settings, buildingIds[..i])
      {
        assert buildingIds[..i + 1] == buildingIds[..i] + [buildingIds[i]];
        var next := AddBuilding(tenantId, contexts, buildingIds[i], perBuilding, start, buildingIds[..i]);
        if next.Err? {
          ReachedFirstFailure(registry.models, contexts, buildingIds, i);
          return Err(next.error);
        }
        perBuilding := next.value;
      }
      assert buildingIds[..|buildingIds|] == buildingIds;
      ReachedAll(registry.models, contexts, buildingIds);
      return Ok(perBuilding);
    }

    /** One building of the loop: its outcomes are filed under its id. */
    method AddBuilding(tenantId: Id, contexts: map<Id, Context>, id: Id, perBuilding: seq<(Id, seq<Outcome>)>,
                       ghost start: seq<Incident>, ghost done: seq<Id>)
      returns (r: Result<seq<(Id, seq<Outcome>)>, ServiceError>)
      requires registry.Valid()
      requires forall id | id in done :: Generates(registry.models, contexts, id)
      requires perBuilding == PerBuildingOf(registry.models, contexts, settings, done)
      requires forall entry | entry in perBuilding :: OutcomesPass(entry.1, settings)
      requires LoggedOver(start, incidents, tenantId, registry.models, contexts, settings, done)
      modifies this`incidents
      ensures r.Ok? <==> Generates(registry.models, contexts, id)
      ensures r.Ok? ==> forall x | x in done + [id] :: Generates(registry.models, contexts, x)
      ensures r.Ok? ==> r.value == PerBuildingOf(registry.models, contexts, settings, done + [id])
      ensures r.Ok? ==> forall entry | entry in r.value :: OutcomesPass(entry.1, settings)
      ensures LoggedOver(start, incidents, tenantId, registry.models, contexts, settings, done + [id])
    {
      ghost var before := incidents;
      var outcomes := GenerateScenarios(tenantId, contexts, id);
      LoggedOneMore(start, before, incidents, tenantId, registry.models, contexts, settings, done, id);
      if outcomes.Err? {
        return Err(outcomes.error);
      }
      assert (done + [id])[..|done|] == done;
      PutPasses(perBuilding, id, outcomes.value, settings);
      return Ok(Put(perBuilding, id, outcomes.value));
    }

    /**
     One valid rollup per model that contributed anything, in catalogue order; none of them shows an increase.
     Raises without buildings, with a building that does, or on a contributing model without a positive version.
     */
    method GeneratePortfolio(tenantId: Id, contexts: map<Id, Context>, buildingIds: seq<Id>)
      returns (r: Result<Portfolio, ServiceError>)
      requires registry.Valid()
      modifies this`incidents
      ensures r.Ok? <==>
                && buildingIds != []
                && (forall id | id in buildingIds :: Generates(registry.models, contexts, id))
                && VersionsPositive(PerBuildingOf(registry.models, contexts, settings, buildingIds), registry.models)
      ensures r.Ok? ==>
                && r.value.buildingIds == buildingIds
                && r.value.perBuilding == PerBuildingOf(registry.models, contexts, settings, buildingIds)
                && (forall entry | entry in r.value.perBuilding :: OutcomesPass(entry.1, settings))
                && r.value.rollups == RollupsOf(r.value.perBuilding, registry.models)
                && Reported(r.value.rollups, r.value.perBuilding, registry.models)
                && AllHarmless(r.value.rollups)
      ensures LoggedOver(old(incidents), incidents, tenantId, registry.models, contexts, settings,
                         buildingIds[..Reached(registry.models, contexts, buildingIds)])
    {
      var generated := GeneratePerBuilding(tenantId, contexts, buildingIds);
      if generated.Err? {
        return Err(generated.error);
      }
      var rollups := RollUp(generated.value);
      if rollups.Err? {
        return Err(rollups.error);
      }
      if buildingIds == [] {
        return Err(InvalidPortfolio);
      }
      return Ok(Portfolio(buildingIds, generated.value, rollups.value));
    }

    /** The loop over the catalogue. */
    method RollUp(perBuilding: seq<(Id, seq<Outcome>)>) returns (r: Result<seq<Rollup>, ServiceError>)
      requires forall entry | entry in perBuilding :: OutcomesPass(entry.1, settings)
      ensures r.Ok? <==> VersionsPositive(perBuilding, registry.models)
      ensures r.Ok? ==> r.value == RollupsOf(perBuilding, registry.models) && AllHarmless(r.value)
      ensures r.Ok? ==> Reported(r.value, perBuilding, registry.models)
    {
      var rollups: seq<Rollup> := [];
      for i := 0 to |registry.models|
        invariant VersionsPositive(perBuilding, registry.models[..i])
        invariant rollups == RollupsOf(perBuilding, registry.models[..i])
        invariant AllHarmless(rollups)
      {
        var model := registry.models[i];
        assert registry.models[..i + 1] == registry.models[..i] + [model];
        RollupsOneMore(perBuilding, registry.models[..i], model);
        RollupDescribes(perBuilding, model);
        var contributing := Contributing(perBuilding, model.name);
        if contributing == [] {
          continue;
        }
        var rollup := RollupOf(model.name, model.version, contributing);
        if model.version < 1 {
          assert model in registry.models && !RollupValid(rollup);
          return Err(InvalidPortfolio);
        }
        ContributionHarmless(perBuilding, model.name, model.version, settings);
        rollups := rollups + [rollup];
      }
      assert registry.models[..|registry.models|] == registry.models;
      ghost var chosen := RollupsReport(perBuilding, registry.models);
      return Ok(rollups);
    }
  }

  /** Every model that contributed to the portfolio has a version its rollup can carry. */
  ghost predicate VersionsPositive(perBuilding: seq<(Id, seq<Outcome>)>, models: seq<Model>) {
    forall m | m in models :: Contributes(perBuilding, m.name) ==> m.version >= 1
  }

  lemma RollupsOneMore(perBuilding: seq<(Id, seq<Outcome>)>, models: seq<Model>, m: Model)
    ensures RollupsOf(perBuilding, models + [m]) ==
            RollupsOf(perBuilding, models)
            + (if Contributing(perBuilding, m.name) == [] then []
               else [RollupOf(m.name, m.version, Contributing(perBuilding, m.name))])
  {
    assert (models + [m])[..|models|] == models;
  }

  lemma ContributionHarmless(perBuilding: seq<(Id, seq<Outcome>)>, name: string, version: nat, settings: Settings)
    requires forall entry | entry in perBuilding :: OutcomesPass(entry.1, settings)
    requires Contributing(perBuilding, name) != [] && version >= 1
    ensures Harmless(RollupOf(name, version, Contributing(perBuilding, name)))
  {
    ContributingPass(perBuilding, name, settings);
    RollupNeverIncreases(name, version, Contributing(perBuilding, name), settings);
  }

  predicate Harmless(r: Rollup) {
    RollupValid(r) && r.totalOptimizedKwh <= r.totalBaselineKwh && r.totalOptimizedEmissions <= r.totalBaselineEmissions
  }

  ghost predicate AllHarmless(rollups: seq<Rollup>) {
    forall rollup | rollup in rollups :: Harmless(rollup)
  }

  // ---------------------------------------------------------------- incidents of a whole request

  /** What one building's run rejects; an unknown building runs nothing. */
  ghost function RejectedOf(models: seq<Model>, contexts: map<Id, Context>, settings: Settings, id: Id): seq<Scenario> {
    if id in contexts then RejectedScenarios(models, contexts[id], settings, Completed(models, contexts[id])) else []
  }

  ghost function RejectedOver(models: seq<Model>, contexts: map<Id, Context>, settings: Settings,
                              ids: seq<Id>): seq<Scenario>
  {
    if ids == [] then []
    else
      RejectedOver(models, contexts, settings, ids[..|ids| - 1]) +
        RejectedOf(models, contexts, settings, ids[|ids| - 1])
  }

  /** How many buildings the loop visits: all of them, or up to the first that raises. */
  function Reached(models: seq<Model>, contexts: map<Id, Context>, ids: seq<Id>): (n: nat)
    ensures n <= |ids|
  {
    if ids == [] then 0
    else if !Generates(models, contexts, ids[0]) then 1
    else 1 + Reached(models, contexts, ids[1..])
  }

  /** The log since start records exactly the rejections of these buildings' runs, in order. */
  ghost predicate LoggedOver(start: seq<Incident>, log: seq<Incident>, tenantId: Id, models: seq<Model>,
                             contexts: map<Id, Context>, settings: Settings, ids: seq<Id>)
  {
    && |log| >= |start| && log[..|start|] == start
    && AllReported(log[|start|..], tenantId, RejectedOver(models, contexts, settings, ids), settings)
  }

  lemma NothingGenerated(log: seq<Incident>, tenantId: Id, models: seq<Model>, contexts: map<Id, Context>,
                         settings: Settings, ids: seq<Id>)
    ensures ids[..0] == [] && PerBuildingOf(models, contexts, settings, ids[..0]) == []
    ensures LoggedOver(log, log, tenantId, models, contexts, settings, ids[..0])
  {
    assert ids[..0] == [];
  }

  lemma ReportedAppend(a: seq<Incident>, b: seq<Incident>, tenantId: Id, ra: seq<Scenario>, rb: seq<Scenario>,
                       settings: Settings)
    requires AllReported(a, tenantId, ra, settings) && AllReported(b, tenantId, rb, settings)
    ensures AllReported(a + b, tenantId, ra + rb, settings)
  {
  }

  lemma LoggedOneMore(start: seq<Incident>, before: seq<Incident>, after: seq<Incident>, tenantId: Id,
                      models: seq<Model>,
                      contexts: map<Id, Context>, settings: Settings, ids: seq<Id>, id: Id)
    requires LoggedOver(start, before, tenantId, models, contexts, settings, ids)
    requires if id in contexts
             then Logged(before, after, tenantId, models, contexts[id], settings, Completed(models, contexts[id]))
             else after == before
    ensures LoggedOver(start, after, tenantId, models, contexts, settings, ids + [id])
  {
    assert (ids + [id])[..|ids|] == ids;
    ReportedAppend(before[|start|..], after[|before|..], tenantId, RejectedOver(models, contexts, settings, ids),
                   RejectedOf(models, contexts, settings, id), settings);
    assert after[..|start|] == after[..|before|][..|start|];
    assert after[|start|..] == before[|start|..] + after[|before|..] by {
      assert after == before + after[|before|..];
    }
  }

  lemma {:induction false} ReachedFirstFailure(models: seq<Model>, contexts: map<Id, Context>, ids: seq<Id>, i: nat)
    requires i < |ids| && !Generates(models, contexts, ids[i])
    requires forall id | id in ids[..i] :: Generates(models, contexts, id)
    ensures Reached(models, contexts, ids) == i + 1
    decreases i
  {
    if i > 0 {
      assert ids[0] in ids[..i];
      assert forall id | id in ids[1..][..i - 1] :: id in ids[..i];
      ReachedFirstFailure(models, contexts, ids[1..], i - 1);
    }
  }

  lemma {:induction false} ReachedAll(models: seq<Model>, contexts: map<Id, Context>, ids: seq<Id>)
    requires forall id | id in ids :: Generates(models, contexts, id)
    ensures Reached(models, contexts, ids) == |ids|
  {
    if ids != [] {
      assert ids[0] in ids;
      assert forall id | id in ids[1..] :: id in ids;
      ReachedAll(models, contexts, ids[1..]);
    }
  }

  function RollupsOf(perBuilding: seq<(Id, seq<Outcome>)>, models: seq<Model>): seq<Rollup> {
    if models == [] then []
    else
      var m := models[|models| - 1];
      var contributing := Contributing(perBuilding, m.name);
      RollupsOf(perBuilding, models[..|models| - 1]) +
        (if contributing == [] then [] else [RollupOf(m.name, m.version, contributing)])
  }

  // ---------------------------------------------------------------- what the per-building dictionary holds

  /** A building's outcomes: each model's own, unless its scenario breaks a bound and is replaced by a rejection. */
  lemma OutcomesMean(models: seq<Model>, ctx: Context, settings: Settings, i: nat)
    requires Completed(models, ctx) == |models| && i < |models|
    ensures var given, kept := models[i].generate(ctx), OutcomesOf(models, ctx, settings)[i];
            && given.Ok?
            && (kept == given.value <==> given.value.Unavailable? || Bounds.Passes(given.value.scenario, settings))
            && (kept != given.value ==>
                  kept == Unavailable(given.value.scenario.scenarioModel, given.value.scenario.modelVersion,
                                      given.value.scenario.buildingId, Rejected))
  {
  }

  ghost predicate KeysDistinct(d: seq<(Id, seq<Outcome>)>) {
    forall i, j | 0 <= i < j < |d| :: d[i].0 != d[j].0
  }

  /** Assignment rewrites the entry of its key in place, or appends one at the end. */
  lemma {:induction false} PutIs(d: seq<(Id, seq<Outcome>)>, key: Id, value: seq<Outcome>) returns (p: nat)
    ensures p <= |d| && (forall i | 0 <= i < p :: d[i].0 != key)
    ensures p == |d| ==> Put(d, key, value) == d + [(key, value)]
    ensures p < |d| ==> d[p].0 == key && Put(d, key, value) == d[p := (key, value)]
  {
    p := 0;
    if d != [] && d[0].0 != key {
      var q := PutIs(d[1..], key, value);
      p := q + 1;
      assert d == [d[0]] + d[1..];
    }
  }

  lemma PutMeans(d: seq<(Id, seq<Outcome>)>, key: Id, value: seq<Outcome>)
    requires KeysDistinct(d)
    ensures var after := Put(d, key, value);
            && KeysDistinct(after)
            && (forall entry :: entry in after <==> entry == (key, value) || (entry in d && entry.0 != key))
  {
    var p := PutIs(d, key, value);
    var after := Put(d, key, value);
    if p < |d| {
      RewrittenMembers(d, p, value);
    }
  }

  lemma RewrittenMembers(d: seq<(Id, seq<Outcome>)>, p: nat, value: seq<Outcome>)
    requires p < |d| && KeysDistinct(d)
    ensures var key := d[p].0;
            forall entry :: entry in d[p := (key, value)] <==> entry == (key, value) || (entry in d && entry.0 != key)
  {
    var key := d[p].0;
    var after := d[p := (key, value)];
    assert after[p] == (key, value);
    forall entry ensures entry in after <==> entry == (key, value) || (entry in d && entry.0 != key) {
      if entry in d && entry.0 != key {
        var i :| 0 <= i < |d| && d[i] == entry;
        assert after[i] == entry;
      }
      if entry in after && entry != (key, value) {
        var i :| 0 <= i < |after| && after[i] == entry;
        assert i != p && d[i] == entry;
      }
    }
  }

  /** The dictionary has one entry per building asked for, holding exactly that building's outcomes. */
  lemma {:induction false} PerBuildingExactly(models: seq<Model>, contexts: map<Id, Context>, settings: Settings,
                                              ids: seq<Id>)
    requires forall id | id in ids :: Generates(models, contexts, id)
    ensures var d := PerBuildingOf(models, contexts, settings, ids);
            && KeysDistinct(d)
            && forall id, outcomes ::
                 (id, outcomes) in d <==>
                 id in ids && Generates(models, contexts, id) && outcomes == OutcomesOf(models, contexts[id], settings)
  {
    if ids != [] {
      var n := |ids| - 1;
      var front, last := ids[..n], ids[n];
      assert ids == front + [last];
      assert forall id | id in front :: id in ids;
      assert Generates(models, contexts, last);
      PerBuildingExactly(models, contexts, settings, front);
      PutMeans(PerBuildingOf(models, contexts, settings, front), last, OutcomesOf(models, contexts[last], settings));
    }
  }

  // ---------------------------------------------------------------- what a portfolio's rollups report

  /** A place in the dictionary: the i-th building's j-th outcome is a scenario this model generated. */
  predicate GeneratedAt(perBuilding: seq<(Id, seq<Outcome>)>, name: string, p: (nat, nat)) {
    && p.0 < |perBuilding| && p.1 < |perBuilding[p.0].1|
    && perBuilding[p.0].1[p.1].Generated? && perBuilding[p.0].1[p.1].scenario.scenarioModel == name
  }

  predicate Before(p: (nat, nat), q: (nat, nat)) { p.0 < q.0 || (p.0 == q.0 && p.1 < q.1) }

  /** All places of this model's scenarios, building by building and outcome by outcome. */
  ghost predicate Lists(perBuilding: seq<(Id, seq<Outcome>)>, name: string, at: seq<(nat, nat)>) {
    && (forall k | 0 <= k < |at| :: GeneratedAt(perBuilding, name, at[k]))
    && (forall j, k | 0 <= j < k < |at| :: Before(at[j], at[k]))
    && (forall p :: GeneratedAt(perBuilding, name, p) ==> p in at)
  }

  ghost predicate Contributes(perBuilding: seq<(Id, seq<Outcome>)>, name: string) {
    exists entry, o :: entry in perBuilding && o in entry.1 && o.Generated? && o.scenario.scenarioModel == name
  }

  function ScenarioAt(perBuilding: seq<(Id, seq<Outcome>)>, name: string, p: (nat, nat)): Scenario
    requires GeneratedAt(perBuilding, name, p)
  {
    perBuilding[p.0].1[p.1].scenario
  }

  function BuildingAt(perBuilding: seq<(Id, seq<Outcome>)>, name: string, p: (nat, nat)): Id
    requires GeneratedAt(perBuilding, name, p)
  {
    perBuilding[p.0].0
  }

  /** The scenarios at these places, in order. */
  function ScenariosAt(perBuilding: seq<(Id, seq<Outcome>)>, name: string, at: seq<(nat, nat)>)
    : (scenarios: seq<Scenario>)
    requires forall k | 0 <= k < |at| :: GeneratedAt(perBuilding, name, at[k])
    ensures |scenarios| == |at|
    ensures forall k | 0 <= k < |at| :: scenarios[k] == ScenarioAt(perBuilding, name, at[k])
  {
    seq(|at|, k requires 0 <= k < |at| && GeneratedAt(perBuilding, name, at[k]) =>
      ScenarioAt(perBuilding, name, at[k]))
  }

  /** The percentage times the baseline is a hundred times what was saved. */
  predicate IsReduction(pct: real, baseline: real, optimized: real) {
    if baseline > 0.0 then pct * baseline == 100.0 * (baseline - optimized) else pct == 0.0
  }

  /** Each figure of the rollup is the rounded sum of that figure over the scenarios. */
  ghost predicate SumsUp(r: Rollup, s: seq<Scenario>) {
    var baseline := Sum(seq(|s|, k requires 0 <= k < |s| => s[k].baselineKwh));
    var optimized := Sum(seq(|s|, k requires 0 <= k < |s| => s[k].optimizedKwh));
    && r.totalBaselineKwh == Round2(baseline)
    && r.totalOptimizedKwh == Round2(optimized)
    && r.totalBaselineEmissions == Round2(Sum(seq(|s|, k requires 0 <= k < |s| => s[k].baselineEmissions)))
    && r.totalOptimizedEmissions == Round2(Sum(seq(|s|, k requires 0 <= k < |s| => s[k].optimizedEmissions)))
    && r.totalSavings == Round2(Sum(seq(|s|, k requires 0 <= k < |s| => s[k].annualSavings)))
    && exists pct :: IsReduction(pct, baseline, optimized) && r.pctReduction == Round2(pct)
  }

  /** The rollup of one model: its name and version, the buildings it generated for, and the sums over its scenarios. */
  ghost predicate Describes(r: Rollup, perBuilding: seq<(Id, seq<Outcome>)>, m: Model) {
    && r.scenarioModel == m.name && r.modelVersion == m.version
    && exists at :: Lists(perBuilding, m.name, at) && at != [] && DescribesAt(r, perBuilding, m.name, at)
  }

  ghost predicate DescribesAt(r: Rollup, perBuilding: seq<(Id, seq<Outcome>)>, name: string, at: seq<(nat, nat)>)
    requires forall k | 0 <= k < |at| :: GeneratedAt(perBuilding, name, at[k])
  {
    && |r.contributing| == |at|
    && (forall k | 0 <= k < |at| :: r.contributing[k] == BuildingAt(perBuilding, name, at[k]))
    && SumsUp(r, ScenariosAt(perBuilding, name, at))
  }

  /** One rollup for each model of the catalogue that generated a scenario, in catalogue order, and no other. */
  ghost predicate Reported(rollups: seq<Rollup>, perBuilding: seq<(Id, seq<Outcome>)>, models: seq<Model>) {
    exists chosen: seq<nat> :: ReportedAs(rollups, perBuilding, models, chosen)
  }

  ghost predicate ReportedAs(rollups: seq<Rollup>, perBuilding: seq<(Id, seq<Outcome>)>, models: seq<Model>,
                             chosen: seq<nat>)
  {
    && |chosen| == |rollups|
    && (forall j, k | 0 <= j < k < |chosen| :: chosen[j] < chosen[k])
    && (forall i: nat :: i in chosen <==> i < |models| && Contributes(perBuilding, models[i].name))
    && (forall k | 0 <= k < |chosen| :: chosen[k] < |models| && Describes(rollups[k], perBuilding, models[chosen[k]]))
  }

  predicate GeneratedBy(o: Outcome, name: string) { o.Generated? && o.scenario.scenarioModel == name }

  /** The positions of the matching outcomes within one building's list. */
  ghost predicate Picks(outcomes: seq<Outcome>, name: string, js: seq<nat>) {
    && (forall i, k | 0 <= i < k < |js| :: js[i] < js[k])
    && (forall j: nat :: j in js <==> j < |outcomes| && GeneratedBy(outcomes[j], name))
  }

  function Later(js: seq<nat>): (later: seq<nat>)
    ensures |later| == |js| && forall k | 0 <= k < |js| :: later[k] == js[k] + 1
  {
    seq(|js|, k requires 0 <= k < |js| => js[k] + 1)
  }

  lemma InLater(js: seq<nat>, j: nat)
    ensures j in Later(js) <==> j > 0 && j - 1 in js
  {
    if j > 0 && j - 1 in js {
      var k :| 0 <= k < |js| && js[k] == j - 1;
      assert Later(js)[k] == j;
    }
  }

  lemma PicksOneMore(outcomes: seq<Outcome>, name: string, rest: seq<nat>)
    requires outcomes != [] && Picks(outcomes[1..], name, rest)
    ensures Picks(outcomes, name, (if GeneratedBy(outcomes[0], name) then [0] else []) + Later(rest))
  {
    var js := (if GeneratedBy(outcomes[0], name) then [0] else []) + Later(rest);
    forall j: nat ensures j in js <==> j < |outcomes| && GeneratedBy(outcomes[j], name) {
      InLater(rest, j);
      assert j > 0 && j < |outcomes| ==> outcomes[j] == outcomes[1..][j - 1];
    }
  }

  ghost predicate Contributed(cs: seq<Contribution>, id: Id, outcomes: seq<Outcome>, name: string, js: seq<nat>) {
    && |cs| == |js|
    && forall k | 0 <= k < |js| ::
         js[k] < |outcomes| && GeneratedBy(outcomes[js[k]], name) && cs[k] == (id, outcomes[js[k]].scenario)
  }

  lemma ContributedOneMore(cs: seq<Contribution>, id: Id, outcomes: seq<Outcome>, name: string, rest: seq<nat>)
    requires outcomes != [] && Contributed(cs, id, outcomes[1..], name, rest)
    ensures var first := GeneratedBy(outcomes[0], name);
            Contributed((if first then [(id, outcomes[0].scenario)] else []) + cs, id, outcomes, name,
                        (if first then [0] else []) + Later(rest))
  {
  }

  lemma {:induction false} OutcomePlaces(id: Id, outcomes: seq<Outcome>, name: string) returns (js: seq<nat>)
    ensures Picks(outcomes, name, js)
    ensures Contributed(FromOutcomes(id, outcomes, name), id, outcomes, name, js)
  {
    js := [];
    if outcomes != [] {
      var rest := OutcomePlaces(id, outcomes[1..], name);
      PicksOneMore(outcomes, name, rest);
      ContributedOneMore(FromOutcomes(id, outcomes[1..], name), id, outcomes, name, rest);
      hide Picks, Contributed;
      js := (if GeneratedBy(outcomes[0], name) then [0] else []) + Later(rest);
    }
  }

  /** The comprehension visits exactly the places of the model's scenarios, in order. */
  lemma {:induction false} Places(perBuilding: seq<(Id, seq<Outcome>)>, name: string) returns (at: seq<(nat, nat)>)
    ensures Lists(perBuilding, name, at) && |at| == |Contributing(perBuilding, name)|
    ensures forall k | 0 <= k < |at| ::
              Contributing(perBuilding, name)[k]
              == (BuildingAt(perBuilding, name, at[k]), ScenarioAt(perBuilding, name, at[k]))
  {
    at := [];
    if perBuilding != [] {
      var js := OutcomePlaces(perBuilding[0].0, perBuilding[0].1, name);
      var rest := Places(perBuilding[1..], name);
      at := HerePlaces(js) + LaterPlaces(rest);
      PlacesOneMore(perBuilding, name, js, rest);
      forall k | 0 <= k < |at|
        ensures GeneratedAt(perBuilding, name, at[k])
        ensures Contributing(perBuilding, name)[k]
                == (BuildingAt(perBuilding, name, at[k]), ScenarioAt(perBuilding, name, at[k]))
      {
        if k >= |js| {
          assert GeneratedAt(perBuilding[1..], name, rest[k - |js|]);
        }
      }
    }
  }

  function HerePlaces(js: seq<nat>): (at: seq<(nat, nat)>)
    ensures |at| == |js| && forall k | 0 <= k < |js| :: at[k] == (0, js[k])
  {
    seq(|js|, k requires 0 <= k < |js| => (0, js[k]))
  }

  function LaterPlaces(rest: seq<(nat, nat)>): (at: seq<(nat, nat)>)
    ensures |at| == |rest| && forall k | 0 <= k < |rest| :: at[k] == (rest[k].0 + 1, rest[k].1)
  {
    seq(|rest|, k requires 0 <= k < |rest| => (rest[k].0 + 1, rest[k].1))
  }

  lemma PlacesOneMore(perBuilding: seq<(Id, seq<Outcome>)>, name: string, js: seq<nat>, rest: seq<(nat, nat)>)
    requires perBuilding != [] && Lists(perBuilding[1..], name, rest) && Picks(perBuilding[0].1, name, js)
    ensures Lists(perBuilding, name, HerePlaces(js) + LaterPlaces(rest))
  {
    var at, tail := HerePlaces(js) + LaterPlaces(rest), perBuilding[1..];
    forall k | 0 <= k < |at| ensures GeneratedAt(perBuilding, name, at[k]) {
      if k < |js| {
        assert js[k] in js;
      } else {
        assert GeneratedAt(tail, name, rest[k - |js|]);
      }
    }
    forall p | GeneratedAt(perBuilding, name, p) ensures p in at {
      if p.0 == 0 {
        assert p == (0, p.1);
        var k :| 0 <= k < |js| && js[k] == p.1;
        assert at[k] == p;
      } else {
        assert GeneratedAt(tail, name, (p.0 - 1, p.1));
        var k :| 0 <= k < |rest| && rest[k] == (p.0 - 1, p.1);
        assert at[|js| + k] == p;
      }
    }
    forall j, k | 0 <= j < k < |at| ensures Before(at[j], at[k]) {
      if j >= |js| {
        assert Before(rest[j - |js|], rest[k - |js|]);
      }
    }
  }

  lemma {:induction false} TotalIsSum(cs: seq<Contribution>, f: Scenario -> real, xs: seq<real>)
    requires |xs| == |cs| && forall k | 0 <= k < |cs| :: xs[k] == f(cs[k].1)
    ensures Total(cs, f) == Sum(xs)
  {
    if cs != [] {
      TotalIsSum(cs[1..], f, xs[1..]);
    }
  }

  lemma ReductionOfTotals(baseline: real, optimized: real)
    ensures IsReduction(PctOfTotals(baseline, optimized), baseline, optimized)
  {
    if baseline > 0.0 {
      QuotientTimes(baseline - optimized, baseline);
      assert PctOfTotals(baseline, optimized) == (baseline - optimized) / baseline * 100.0;
      assert (baseline - optimized) / baseline * 100.0 * baseline
          == (baseline - optimized) / baseline * baseline * 100.0;
    }
  }

  lemma RollupSumsUp(name: string, version: nat, cs: seq<Contribution>, s: seq<Scenario>)
    requires |s| == |cs| && forall k | 0 <= k < |cs| :: s[k] == cs[k].1
    ensures SumsUp(RollupOf(name, version, cs), s)
  {
    TotalIsSum(cs, Baseline, seq(|s|, k requires 0 <= k < |s| => s[k].baselineKwh));
    TotalIsSum(cs, Optimized, seq(|s|, k requires 0 <= k < |s| => s[k].optimizedKwh));
    TotalIsSum(cs, BaselineEmissions, seq(|s|, k requires 0 <= k < |s| => s[k].baselineEmissions));
    TotalIsSum(cs, OptimizedEmissions, seq(|s|, k requires 0 <= k < |s| => s[k].optimizedEmissions));
    TotalIsSum(cs, Savings, seq(|s|, k requires 0 <= k < |s| => s[k].annualSavings));
    ReductionOfTotals(Total(cs, Baseline), Total(cs, Optimized));
  }

  predicate InOrder(at: seq<(nat, nat)>) { forall j, k | 0 <= j < k < |at| :: Before(at[j], at[k]) }

  lemma {:induction false} OrderedTheSame(a: seq<(nat, nat)>, b: seq<(nat, nat)>)
    requires InOrder(a) && InOrder(b) && forall p :: p in a <==> p in b
    ensures a == b
  {
    assert a != [] ==> a[0] in a;
    assert b != [] ==> b[0] in b;
    if a != [] && b != [] {
      var i, j :| 0 <= i < |a| && a[i] == b[0] && 0 <= j < |b| && b[j] == a[0];
      assert a[0] == b[0];
      forall p ensures p in a[1..] <==> p in b[1..] {
        TailMembers(a, p);
        TailMembers(b, p);
      }
      OrderedTheSame(a[1..], b[1..]);
      assert a == [a[0]] + a[1..] && b == [b[0]] + b[1..];
    }
  }

  lemma TailMembers(a: seq<(nat, nat)>, p: (nat, nat))
    requires a != [] && InOrder(a)
    ensures p in a[1..] <==> p in a && p != a[0]
  {
    assert a == [a[0]] + a[1..];
  }

  /** There is one list of a model's places, so the rollup described by it is determined. */
  lemma ListsOnlyOne(perBuilding: seq<(Id, seq<Outcome>)>, name: string, a: seq<(nat, nat)>, b: seq<(nat, nat)>)
    requires Lists(perBuilding, name, a) && Lists(perBuilding, name, b)
    ensures a == b
  {
    forall p ensures p in a <==> p in b {
      if p in a {
        var k :| 0 <= k < |a| && a[k] == p;
      }
      if p in b {
        var k :| 0 <= k < |b| && b[k] == p;
      }
    }
    OrderedTheSame(a, b);
  }

  lemma ContributesExactly(perBuilding: seq<(Id, seq<Outcome>)>, name: string, at: seq<(nat, nat)>)
    requires Lists(perBuilding, name, at)
    ensures Contributes(perBuilding, name) <==> at != []
  {
    if at != [] {
      assert GeneratedAt(perBuilding, name, at[0]);
      assert perBuilding[at[0].0] in perBuilding;
    }
    if entry, o :| entry in perBuilding && o in entry.1 && o.Generated? && o.scenario.scenarioModel == name {
      var i :| 0 <= i < |perBuilding| && perBuilding[i] == entry;
      var j :| 0 <= j < |entry.1| && entry.1[j] == o;
      assert GeneratedAt(perBuilding, name, (i, j));
    }
  }

  /** The rollup built from the comprehension is the one that describes the model's scenarios. */
  lemma RollupDescribes(perBuilding: seq<(Id, seq<Outcome>)>, m: Model)
    ensures Contributes(perBuilding, m.name) <==> Contributing(perBuilding, m.name) != []
    ensures Contributing(perBuilding, m.name) != [] ==>
              Describes(RollupOf(m.name, m.version, Contributing(perBuilding, m.name)), perBuilding, m)
  {
    var at := Places(perBuilding, m.name);
    var cs := Contributing(perBuilding, m.name);
    ContributesExactly(perBuilding, m.name, at);
    RollupSumsUp(m.name, m.version, cs, ScenariosAt(perBuilding, m.name, at));
    assert at != [] ==> DescribesAt(RollupOf(m.name, m.version, cs), perBuilding, m.name, at);
  }

  lemma ChosenOneMore(front: seq<nat>, n: nat, last: bool)
    requires forall j, k | 0 <= j < k < |front| :: front[j] < front[k]
    requires forall k | 0 <= k < |front| :: front[k] < n
    ensures var chosen := front + (if last then [n] else []);
            && (forall j, k | 0 <= j < k < |chosen| :: chosen[j] < chosen[k])
            && (forall i: nat :: i in chosen <==> i in front || (last && i == n))
  {
  }

  lemma ReportOneMore(rollups: seq<Rollup>, perBuilding: seq<(Id, seq<Outcome>)>, models: seq<Model>,
                      front: seq<nat>, more: seq<Rollup>)
    requires models != [] && ReportedAs(rollups, perBuilding, models[..|models| - 1], front)
    requires Contributes(perBuilding, models[|models| - 1].name) ==>
               |more| == 1 && Describes(more[0], perBuilding, models[|models| - 1])
    requires !Contributes(perBuilding, models[|models| - 1].name) ==> more == []
    ensures var last := if Contributes(perBuilding, models[|models| - 1].name) then [|models| - 1] else [];
            ReportedAs(rollups + more, perBuilding, models, front + last)
  {
    hide Contributes, Describes;
    var n := |models| - 1;
    var last := Contributes(perBuilding, models[n].name);
    var chosen, all := front + (if last then [n] else []), rollups + more;
    ChosenOneMore(front, n, last);
    forall k | 0 <= k < |chosen| ensures chosen[k] < |models| && Describes(all[k], perBuilding, models[chosen[k]]) {
      if k < |front| {
        assert models[..n][front[k]] == models[front[k]];
      }
    }
  }

  lemma {:induction false} RollupsReport(perBuilding: seq<(Id, seq<Outcome>)>, models: seq<Model>)
    returns (chosen: seq<nat>)
    ensures ReportedAs(RollupsOf(perBuilding, models), perBuilding, models, chosen)
  {
    chosen := [];
    if models != [] {
      var n := |models| - 1;
      var m := models[n];
      var front := RollupsReport(perBuilding, models[..n]);
      RollupDescribes(perBuilding, m);
      var contributing := Contributing(perBuilding, m.name);
      var more := if contributing == [] then [] else [RollupOf(m.name, m.version, contributing)];
      ReportOneMore(RollupsOf(perBuilding, models[..n]), perBuilding, models, front, more);
      chosen := front + (if Contributes(perBuilding, m.name) then [n] else []);
    }
  }

  /** A model has a rollup under its name exactly when some building's outcomes hold a scenario it generated. */
  lemma RollupIffContributed(rollups: seq<Rollup>, perBuilding: seq<(Id, seq<Outcome>)>, models: seq<Model>, m: Model)
    requires Reported(rollups, perBuilding, models) && m in models
    ensures (exists r :: r in rollups && r.scenarioModel == m.name) <==> Contributes(perBuilding, m.name)
  {
    var chosen :| ReportedAs(rollups, perBuilding, models, chosen);
    var i :| 0 <= i < |models| && models[i] == m;
    if Contributes(perBuilding, m.name) {
      assert i in chosen;
      var k :| 0 <= k < |chosen| && chosen[k] == i;
      assert rollups[k] in rollups && Describes(rollups[k], perBuilding, models[chosen[k]]);
    }
    if r :| r in rollups && r.scenarioModel == m.name {
      var k :| 0 <= k < |rollups| && rollups[k] == r;
      assert chosen[k] in chosen && Describes(rollups[k], perBuilding, models[chosen[k]]);
    }
  }
}
