/** The optimization engine's records: settings, building context, scenarios and their validated construction. */
module OptimizationModels {
  import opened Wrappers

  type Id = nat

  datatype Settings = Settings(
    windowDays: int,
    defaultPeakRate: real,
    defaultOffpeakRate: real,
    peakHours: set<int>,
    maxShiftableFraction: real,
    consumptionPerDegree: real,
    maxSetpointDelta: real,
    panelEfficiency: real,
    performanceRatio: real,
    capacityDensity: real,
    capexPerKw: real,
    minPlausiblePct: real,
    maxPlausiblePct: real,
    maxPlausiblePayback: real)

  /** A reading of the lookback window; only its hour of day matters here. */
  datatype Reading = Reading(kwh: Option<real>, hour: int)

  datatype JustifyingFinding = JustifyingFinding(findingId: Id, circuit: Option<Id>, ruleIds: set<string>)

  datatype Circuit = Circuit(circuitId: Id, circuitType: string)

  datatype TariffEntry = Rate(rate: real) | NotANumber

  /** Readings are kept per circuit in the order the repository returned them. */
  datatype Context = Context(
    buildingId: Id,
    tariff: Option<map<string, TariffEntry>>,
    rooftopArea: Option<real>,
    latitude: Option<real>,
    longitude: Option<real>,
    findings: seq<JustifyingFinding>,
    circuits: seq<Circuit>,
    readings: seq<(Id, seq<Reading>)>,
    carbonIntensity: real,
    irradiance: Option<real>,
    settings: Settings)

  datatype Scenario = Scenario(
    scenarioModel: string,
    modelVersion: nat,
    buildingId: Id,
    justifying: seq<Id>,
    baselineKwh: real,
    optimizedKwh: real,
    baselineEmissions: real,
    optimizedEmissions: real,
    pctReduction: real,
    lowerPct: real,
    upperPct: real,
    annualSavings: real,
    paybackMonths: real)

  /** The field constraints of the scenario record. */
  predicate FieldsValid(s: Scenario) {
    && s.modelVersion >= 1
    && s.justifying != []
    && s.baselineKwh >= 0.0 && s.optimizedKwh >= 0.0
    && s.baselineEmissions >= 0.0 && s.optimizedEmissions >= 0.0
    && 0.0 <= s.pctReduction <= 100.0
    && s.annualSavings >= 0.0 && s.paybackMonths >= 0.0
  }

  /** A record that exists has passed its validators. */
  type ValidScenario = s: Scenario | FieldsValid(s)
    witness Scenario("", 1, 0, [0], 0.0, 0.0, 0.0, 0.0, 0.0, 0.0, 0.0, 0.0, 0.0)

  datatype Reason =
    | NoJustifyingFinding | NoReadings | NoConsumption | NoRooftop | NoLocation | NoIrradiance | Rejected

  datatype Outcome =
    | Generated(scenario: ValidScenario)
    | Unavailable(scenarioModel: string, modelVersion: nat, buildingId: Id, reason: Reason)

  datatype ServiceError = InvalidScenario | InvalidPortfolio | BuildingNotFound

  /** Building a record whose fields break a constraint raises an error instead of returning. */
  function Construct(s: Scenario): Result<Outcome, ServiceError> {
    if FieldsValid(s) then Ok(Generated(s)) else Err(InvalidScenario)
  }
}
