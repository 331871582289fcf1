/** From rule firings to feature columns: the rule engine, the firing index, assembly and vector layout. */
module FeaturePipeline {
  import opened Wrappers
  import opened IngestionModels
  import opened Sorting
  import R = RuleConditions

  type Timestamp = nat

  /** A reading as the rule engine receives it. */
  datatype EngineReading = EngineReading(status: Status, circuit: Option<Id>, ts: Option<Timestamp>, kwh: Option<real>)

  datatype Rule = Rule(ruleId: string, appliesTo: map<string, string>, condition: Option<R.Expr>)

  datatype Finding = Finding(circuit: Option<Id>, ts: Timestamp, ruleId: string)

  /** What every rule evaluation of one batch shares. */
  datatype Building = Building(rt: R.Runtime, context: R.Value, circuitTypes: map<Id, string>)

  // ---------------------------------------------------------------- the rule engine

  function ContextOf(b: Building, r: EngineReading): R.Context
    requires r.ts.Some?
  {
    map[
      "ts" := R.Object(r.ts.value),
      "kwh" := if r.kwh.Some? then R.Number(r.kwh.value) else R.NoneValue,
      "building" := b.context,
      "circuit_type" := if r.circuit.Some? && r.circuit.value in b.circuitTypes
                        then R.Str(b.circuitTypes[r.circuit.value]) else R.NoneValue]
  }

  /** Every key of applies_to names a context entry equal to its value; an absent entry never matches. */
  predicate MatchesAppliesTo(appliesTo: map<string, string>, ctx: R.Context) {
    forall key | key in appliesTo :: key in ctx && ctx[key] == R.Str(appliesTo[key])
  }

  predicate Fires(b: Building, rule: Rule, r: EngineReading) {
    && r.status != Quarantined
    && r.ts.Some?
    && MatchesAppliesTo(rule.appliesTo, ContextOf(b, r))
    && R.Holds(b.rt, ContextOf(b, r), rule.condition)
  }

  /** Some non-quarantined reading of this circuit and instant makes a rule of this id fire. */
  ghost predicate FiredAt(b: Building, rules: seq<Rule>, readings: seq<EngineReading>, c: Option<Id>, ts: Timestamp,
                          ruleId: string)
  {
    exists r | r in readings :: r.circuit == c && r.ts == Some(ts) && FiredBy(b, rules, r, ruleId)
  }

  ghost predicate FiredBy(b: Building, rules: seq<Rule>, r: EngineReading, ruleId: string) {
    exists rule | rule in rules :: rule.ruleId == ruleId && Fires(b, rule, r)
  }

  /** The findings of one reading, in rule order. */
  function RuleFindings(b: Building, rules: seq<Rule>, r: EngineReading): seq<Finding>
    requires r.ts.Some?
  {
    if rules == [] then []
    else
      var n := |rules| - 1;
      RuleFindings(b, rules[..n], r) +
        (if Fires(b, rules[n], r) then [Finding(r.circuit, r.ts.value, rules[n].ruleId)] else [])
  }

  /** The findings of a batch, reading by reading. */
  function BatchFindings(b: Building, rules: seq<Rule>, readings: seq<EngineReading>): seq<Finding> {
    if readings == [] then []
    else
      var n := |readings| - 1;
      var r := readings[n];
      BatchFindings(b, rules, readings[..n]) +
        (if r.status == Quarantined || r.ts.None? then [] else RuleFindings(b, rules, r))
  }

  /** The engine's nested loops. */
  method ProcessReadings(b: Building, rules: seq<Rule>, readings: seq<EngineReading>) returns (findings: seq<Finding>)
    ensures findings == BatchFindings(b, rules, readings)
    ensures forall f :: f in findings <==> FiredAt(b, rules, readings, f.circuit, f.ts, f.ruleId)
  {
    findings := [];
    for i := 0 to |readings|
      invariant findings == BatchFindings(b, rules, readings[..i])
    {
      var reading := readings[i];
      assert readings[..i + 1][..i] == readings[..i];
      if reading.status == Quarantined {
        continue;
      }
      if reading.ts.None? {
        continue;
      }
      ghost var before := findings;
      var context := ContextOf(b, reading);
      for j := 0 to |rules|
        invariant findings == before + RuleFindings(b, rules[..j], reading)
      {
        var rule := rules[j];
        assert rules[..j + 1][..j] == rules[..j];
        if !MatchesAppliesTo(rule.appliesTo, context) {
          continue;
        }
        if R.Holds(b.rt, context, rule.condition) {
          findings := findings + [Finding(reading.circuit, reading.ts.value, rule.ruleId)];
        }
      }
      assert rules[..|rules|] == rules;
    }
    assert readings[..|readings|] == readings;
    forall f ensures f in findings <==> FiredAt(b, rules, readings, f.circuit, f.ts, f.ruleId) {
      FindingsExactly(b, rules, readings, f);
    }
  }

  lemma {:induction false} RuleFindingsExactly(b: Building, rules: seq<Rule>, r: EngineReading, f: Finding)
    requires r.ts.Some?
    ensures f in RuleFindings(b, rules, r) <==>
            f.circuit == r.circuit && r.ts == Some(f.ts) && FiredBy(b, rules, r, f.ruleId)
  {
    if rules != [] {
      var n := |rules| - 1;
      RuleFindingsExactly(b, rules[..n], r, f);
      assert rules == rules[..n] + [rules[n]];
    }
  }

  lemma {:induction false} FindingsExactly(b: Building, rules: seq<Rule>, readings: seq<EngineReading>, f: Finding)
    ensures f in BatchFindings(b, rules, readings) <==> FiredAt(b, rules, readings, f.circuit, f.ts, f.ruleId)
  {
    if readings != [] {
      var n := |readings| - 1;
      var r := readings[n];
      FindingsExactly(b, rules, readings[..n], f);
      LastReading(b, rules, readings[..n], r, f);
      assert readings == readings[..n] + [r];
      if r.status != Quarantined && r.ts.Some? {
        RuleFindingsExactly(b, rules, r, f);
      }
    }
  }

  lemma LastReading(b: Building, rules: seq<Rule>, readings: seq<EngineReading>, r: EngineReading, f: Finding)
    ensures FiredAt(b, rules, readings + [r], f.circuit, f.ts, f.ruleId) <==>
            FiredAt(b, rules, readings, f.circuit, f.ts, f.ruleId)
            || (f.circuit == r.circuit && r.ts == Some(f.ts) && FiredBy(b, rules, r, f.ruleId))
  {
    assert r in readings + [r];
  }

  /** The engine wraps the building's dictionary, so a rule that only dots into names means what Python means. */
  lemma RuleIsPythonTruth(b: Building, r: EngineReading, tree: R.Expr)
    requires r.ts.Some? && !b.context.DictValue?
    requires R.TruthSafe(tree) && forall base | base in R.DottedBases(tree) :: base.Name?
    ensures R.Holds(b.rt, ContextOf(b, r), Some(tree)) <==>
            R.Accepts(tree) && R.TruthOf(b.rt, R.PyEval(b.rt, ContextOf(b, r), tree)) == Ok(true)
  {
    var ctx := ContextOf(b, r);
    forall id | id in ctx ensures !ctx[id].DictValue? {
      assert id == "ts" || id == "kwh" || id == "building" || id == "circuit_type";
    }
    R.NamesHoldNoDictionaries(b.rt, ctx, R.DottedBases(tree));
    R.HoldsIsPythonTruth(b.rt, ctx, Some(tree));
  }

  // ---------------------------------------------------------------- the firing index

  type Flags = map<string, bool>
  type FiringIndex = map<Id, map<Timestamp, Flags>>

  predicate Flagged(flags: Flags, ruleId: string) {
    ruleId in flags && flags[ruleId]
  }

  function FlagsAt(byTs: map<Timestamp, Flags>, ts: Timestamp): Flags {
    if ts in byTs then byTs[ts] else map[]
  }

  function CircuitFlags(index: FiringIndex, c: Id): map<Timestamp, Flags> {
    if c in index then index[c] else map[]
  }

  /** The index holds exactly the given findings that name a circuit; every stored flag is true. */
  ghost predicate Indexes(index: FiringIndex, findings: seq<Finding>) {
    forall c, ts, ruleId ::
      && (ruleId in FlagsAt(CircuitFlags(index, c), ts) <==> Finding(Some(c), ts, ruleId) in findings)
      && (ruleId in FlagsAt(CircuitFlags(index, c), ts) ==> FlagsAt(CircuitFlags(index, c), ts)[ruleId])
  }

  method IndexRuleFires(findings: seq<Finding>) returns (index: FiringIndex)
    ensures Indexes(index, findings)
  {
    index := map[];
    for i := 0 to |findings|
      invariant Indexes(index, findings[..i])
    {
      var f := findings[i];
      assert findings[..i + 1] == findings[..i] + [f];
      if f.circuit.None? {
        continue;
      }
      var byTs := CircuitFlags(index, f.circuit.value);
      var flags := FlagsAt(byTs, f.ts)[f.ruleId := true];
      index := index[f.circuit.value := byTs[f.ts := flags]];
    }
    assert findings[..|findings|] == findings;
  }

  // ---------------------------------------------------------------- assembly

  /** A normalized reading of one circuit. */
  datatype Reading = Reading(circuit: Id, ts: Timestamp, kwh: Option<real>)

  /** The five rolling statistics, in column order. */
  datatype Rolling = Rolling(baseline: Option<real>, peakSplit: Option<real>, afterHours: Option<real>,
                             weekendFloor: Option<real>, efficiency: Option<real>)

  datatype StlFields = StlFields(residualMagnitude: Option<real>, dayType: string, lowQuality: bool)

  datatype FeatureRow = FeatureRow(
    circuit: Id,
    ts: Timestamp,
    rolling: Rolling,
    stlMagnitude: Option<real>,
    dayType: string,
    ruleFires: Flags,
    lowQuality: bool)

  /** The rolling statistics of the reading at a position of the sorted window. */
  type RollingStats = (seq<Reading>, nat) -> Rolling

  predicate NoLater(a: Reading, b: Reading) { a.ts <= b.ts }

  function FromComponents(r: Reading, rolling: Rolling, stl: Option<StlFields>, fires: Flags): FeatureRow {
    match stl
    case None => FeatureRow(r.circuit, r.ts, rolling, None, "business_day", fires, false)
    case Some(s) => FeatureRow(r.circuit, r.ts, rolling, s.residualMagnitude, s.dayType, fires, s.lowQuality)
  }

  /** The row of the k-th reading of a sorted window. */
  function RowAt(stats: RollingStats, sorted: seq<Reading>, k: nat, stl: map<Timestamp, StlFields>,
                 fires: map<Timestamp, Flags>): FeatureRow
    requires k < |sorted|
  {
    FromComponents(sorted[k], stats(sorted, k), Lookup(stl, sorted[k].ts), FlagsAt(fires, sorted[k].ts))
  }

  predicate NonNegative(x: Option<real>) { x.Some? ==> x.value >= 0.0 }

  /** The field constraints of the feature record; a row that breaks one raises an error. */
  predicate RowValid(row: FeatureRow) {
    RollingValid(row.rolling) && NonNegative(row.stlMagnitude)
  }

  predicate RollingValid(rolling: Rolling) {
    && NonNegative(rolling.peakSplit) && (rolling.peakSplit.Some? ==> rolling.peakSplit.value <= 1.0)
    && NonNegative(rolling.afterHours) && NonNegative(rolling.weekendFloor) && NonNegative(rolling.efficiency)
  }

  /** The STL columns of a row come from this entry, or are the defaults. */
  predicate TakesStl(row: FeatureRow, entry: Option<StlFields>) {
    match entry
    case None => row.stlMagnitude == None && row.dayType == "business_day" && !row.lowQuality
    case Some(f) =>
      row.stlMagnitude == f.residualMagnitude && row.dayType == f.dayType && row.lowQuality == f.lowQuality
  }

  /** One row per reading, ascending in time, each with its own instant's upstream fields. */
  function Rows(stats: RollingStats, readings: seq<Reading>, stl: map<Timestamp, StlFields>,
                fires: map<Timestamp, Flags>)
    : seq<FeatureRow>
  {
    var sorted := Sort(readings, NoLater);
    seq(|sorted|, k requires 0 <= k < |sorted| => RowAt(stats, sorted, k, stl, fires))
  }

  /** Raises at the first row that breaks a field constraint. */
  method Assemble(stats: RollingStats, readings: seq<Reading>, stl: map<Timestamp, StlFields>,
                  fires: map<Timestamp, Flags>)
    returns (r: Result<seq<FeatureRow>, PipelineError>)
    ensures r.Ok? <==> forall row | row in Rows(stats, readings, stl, fires) :: RowValid(row)
    ensures r.Ok? ==> r.value == Rows(stats, readings, stl, fires)
    ensures r.Err? ==> r.error == InvalidRow
  {
    var rows: seq<FeatureRow> := [];
    var sorted := Sort(readings, NoLater);
    ghost var all := Rows(stats, readings, stl, fires);
    for k := 0 to |sorted|
      invariant rows == all[..k]
      invariant forall row | row in rows :: RowValid(row)
    {
      var row := RowAt(stats, sorted, k, stl, fires);
      assert row == all[k];
      if !RowValid(row) {
        assert all[k] in all;
        return Err(InvalidRow);
      }
      rows := rows + [row];
    }
    assert all[..|all|] == all;
    return Ok(rows);
  }

  /** Assembly loses no reading, orders rows by time, and gives each row the flags of its own instant. */
  lemma RowsMatchReadings(stats: RollingStats, readings: seq<Reading>, stl: map<Timestamp, StlFields>,
                          fires: map<Timestamp, Flags>)
    ensures var rows := Rows(stats, readings, stl, fires);
            && |rows| == |readings|
            && (forall i, j | 0 <= i < j < |rows| :: rows[i].ts <= rows[j].ts)
            && (forall row | row in rows :: FromReading(row, readings) && row.ruleFires == FlagsAt(fires, row.ts)
                                            && TakesStl(row, Lookup(stl, row.ts)))
  {
    var sorted, rows := Sort(readings, NoLater), Rows(stats, readings, stl, fires);
    SortProperties(readings, NoLater);
    SortMembers(readings, NoLater);
    forall i, j | 0 <= i < j < |rows| ensures rows[i].ts <= rows[j].ts {
      assert NoLater(sorted[i], sorted[j]);
    }
    forall row | row in rows
      ensures FromReading(row, readings) && row.ruleFires == FlagsAt(fires, row.ts) &&
              TakesStl(row, Lookup(stl, row.ts))
    {
      var k: nat :| k < |rows| && rows[k] == row;
      RowIsItsReading(stats, sorted, k, stl, fires);
      assert sorted[k] in sorted;
    }
  }

  lemma RowIsItsReading(stats: RollingStats, sorted: seq<Reading>, k: nat, stl: map<Timestamp, StlFields>,
                        fires: map<Timestamp, Flags>)
    requires k < |sorted|
    ensures var row := RowAt(stats, sorted, k, stl, fires);
            row.circuit == sorted[k].circuit && row.ts == sorted[k].ts && row.ruleFires == FlagsAt(fires, sorted[k].ts)
            && TakesStl(row, Lookup(stl, sorted[k].ts))
  {
  }

  ghost predicate FromReading(row: FeatureRow, readings: seq<Reading>) {
    exists r | r in readings :: r.circuit == row.circuit && r.ts == row.ts
  }

  // ---------------------------------------------------------------- vectors and columns

  function DayTypeEncoding(dayType: string): real {
    if dayType == "weekend" then 1.0
    else if dayType == "holiday" then 2.0
    else if dayType == "declared_closure" then 3.0
    else 0.0
  }

  function ZeroFilled(x: Option<real>): real {
    if x.Some? then x.value else 0.0
  }

  function RuleFlags(flags: Flags, ruleIds: seq<string>): (v: seq<real>)
    ensures |v| == |ruleIds|
    ensures forall j | 0 <= j < |v| :: v[j] == if Flagged(flags, ruleIds[j]) then 1.0 else 0.0
  {
    seq(|ruleIds|, j requires 0 <= j < |ruleIds| => if Flagged(flags, ruleIds[j]) then 1.0 else 0.0)
  }

  function ToNumericVector(row: FeatureRow, ruleIds: seq<string>): seq<real> {
    [ZeroFilled(row.rolling.baseline), ZeroFilled(row.rolling.peakSplit), ZeroFilled(row.rolling.afterHours),
     ZeroFilled(row.rolling.weekendFloor), ZeroFilled(row.rolling.efficiency), ZeroFilled(row.stlMagnitude),
     DayTypeEncoding(row.dayType)] + RuleFlags(row.ruleFires, ruleIds)
  }

  const BASE_NAMES := ["rolling_baseline_kwh", "peak_offpeak_split", "after_hours_kwh_ratio", "weekend_floor_load",
                       "rolling_efficiency_ratio", "stl_residual_magnitude", "day_type_encoded"]

  function RuleNames(ruleIds: seq<string>): (names: seq<string>)
    ensures |names| == |ruleIds|
    ensures forall j | 0 <= j < |names| :: names[j] == "rule_fire_" + ruleIds[j]
  {
    seq(|ruleIds|, j requires 0 <= j < |ruleIds| => "rule_fire_" + ruleIds[j])
  }

  function FeatureNames(ruleIds: seq<string>): seq<string> {
    BASE_NAMES + RuleNames(ruleIds)
  }

  ghost predicate Distinct<T>(s: seq<T>) {
    forall i, j | 0 <= i < j < |s| :: s[i] != s[j]
  }

  /** Rule r owns exactly one column, found by its name, and the column shows r's flag and nothing else. */
  lemma RuleColumn(row: FeatureRow, ruleIds: seq<string>, r: string, k: nat)
    requires Distinct(ruleIds) && r in ruleIds
    requires k < |FeatureNames(ruleIds)| && FeatureNames(ruleIds)[k] == "rule_fire_" + r
    ensures |ToNumericVector(row, ruleIds)| == |FeatureNames(ruleIds)| == 7 + |ruleIds|
    ensures k >= 7 && ruleIds[k - 7] == r
    ensures ToNumericVector(row, ruleIds)[k] == if Flagged(row.ruleFires, r) then 1.0 else 0.0
  {
    var name := "rule_fire_" + r;
    assert name[0] == 'r' && name[1] == 'u';
    assert forall i | 0 <= i < 7 :: BASE_NAMES[i][0] != 'r' || BASE_NAMES[i][1] != 'u';
    assert forall i | 0 <= i < 7 :: FeatureNames(ruleIds)[i] == BASE_NAMES[i];
    assert k >= 7 && RuleNames(ruleIds)[k - 7] == name;
    assert ("rule_fire_" + ruleIds[k - 7])[10..] == ruleIds[k - 7] && name[10..] == r;
  }

  // ---------------------------------------------------------------- the rule id order

  /** Python's string order: by code point, prefixes first. */
  predicate StringLeq(a: string, b: string) {
    a == "" || (b != "" && (a[0] < b[0] || (a[0] == b[0] && StringLeq(a[1..], b[1..]))))
  }

  lemma {:induction false} StringLeqTotal(a: string, b: string)
    ensures StringLeq(a, b) || StringLeq(b, a)
  {
    if a != "" && b != "" {
      StringLeqTotal(a[1..], b[1..]);
    }
  }

  lemma {:induction false} StringLeqTransitive(a: string, b: string, c: string)
    requires StringLeq(a, b) && StringLeq(b, c)
    ensures StringLeq(a, c)
  {
    if a != "" && a[0] == b[0] == c[0] {
      StringLeqTransitive(a[1..], b[1..], c[1..]);
    }
  }

  lemma {:induction false} StringLeqAntisymmetric(a: string, b: string)
    requires StringLeq(a, b) && StringLeq(b, a)
    ensures a == b
  {
    if a != "" {
      StringLeqAntisymmetric(a[1..], b[1..]);
      assert a == [a[0]] + a[1..] && b == [b[0]] + b[1..];
    }
  }

  lemma StringOrder()
    ensures TotalPreorder(StringLeq)
  {
    forall a, b ensures StringLeq(a, b) || StringLeq(b, a) {
      StringLeqTotal(a, b);
    }
    forall a, b, c | StringLeq(a, b) && StringLeq(b, c) ensures StringLeq(a, c) {
      StringLeqTransitive(a, b, c);
    }
  }

  ghost predicate HasRule(rows: seq<FeatureRow>, ruleId: string) {
    exists row | row in rows :: ruleId in row.ruleFires
  }

  method CollectRuleIds(rows: seq<FeatureRow>) returns (ids: seq<string>)
    ensures forall id :: id in ids <==> HasRule(rows, id)
    ensures forall row, id | row in rows && id in row.ruleFires :: id in ids
    ensures forall id | id in ids :: exists row :: row in rows && id in row.ruleFires
    ensures Distinct(ids) && Ordered(ids, StringLeq)
  {
    var allIds: set<string> := {};
    for i := 0 to |rows|
      invariant forall id :: id in allIds <==> HasRule(rows[..i], id)
    {
      assert rows[..i + 1] == rows[..i] + [rows[i]];
      allIds := allIds + rows[i].ruleFires.Keys;
    }
    assert rows[..|rows|] == rows;
    var unsorted := Enumerate(allIds);
    ids := Sort(unsorted, StringLeq);
    StringOrder();
    SortProperties(unsorted, StringLeq);
    SortMembers(unsorted, StringLeq);
    DistinctByCount(unsorted, ids);
  }

  /** The members of a set in some order. */
  method Enumerate(ids: set<string>) returns (s: seq<string>)
    ensures Distinct(s) && forall id :: id in s <==> id in ids
  {
    s := [];
    var rest := ids;
    while rest != {}
      invariant Distinct(s) && rest <= ids
      invariant forall id :: id in s <==> id in ids - rest
      decreases rest
    {
      var id :| id in rest;
      assert id !in s;
      s, rest := s + [id], rest - {id};
    }
  }

  lemma {:induction false} CountOfDistinct(s: seq<string>, x: string)
    requires Distinct(s)
    ensures multiset(s)[x] <= 1
  {
    if s != [] {
      CountOfDistinct(s[1..], x);
      assert s == [s[0]] + s[1..];
      assert x == s[0] ==> x !in s[1..];
    }
  }

  /** Being duplicate-free is a matter of counts, so sorting keeps it. */
  lemma DistinctByCount(a: seq<string>, b: seq<string>)
    requires Distinct(a) && multiset(a) == multiset(b)
    ensures Distinct(b)
  {
    forall i, j | 0 <= i < j < |b| ensures b[i] != b[j] {
      CountOfDistinct(a, b[i]);
      assert b == b[..j] + [b[j]] + b[j + 1..];
      assert b[i] in b[..j];
    }
  }

  lemma BothEmpty(a: seq<string>, b: seq<string>)
    requires forall id :: id in a <==> id in b
    ensures a == [] <==> b == []
  {
    if a != [] {
      assert a[0] in b;
    }
    if b != [] {
      assert b[0] in a;
    }
  }

  /** The id order is a function of the set of ids alone, so training and serving agree on the columns. */
  lemma {:induction false} ColumnOrderDetermined(a: seq<string>, b: seq<string>)
    requires Distinct(a) && Ordered(a, StringLeq) && Distinct(b) && Ordered(b, StringLeq)
    requires forall id :: id in a <==> id in b
    ensures a == b
  {
    BothEmpty(a, b);
    if a != [] {
      StringOrder();
      assert a[0] in b && b[0] in a;
      HeadIsLeast(a, b[0], StringLeq);
      HeadIsLeast(b, a[0], StringLeq);
      StringLeqAntisymmetric(a[0], b[0]);
      assert a == [a[0]] + a[1..] && b == [b[0]] + b[1..];
      forall id ensures id in a[1..] <==> id in b[1..] {
        assert id in a[1..] <==> id in a && id != a[0];
        assert id in b[1..] <==> id in b && id != b[0];
      }
      ColumnOrderDetermined(a[1..], b[1..]);
    }
  }

  // ---------------------------------------------------------------- the batch pipeline

  /** One circuit's window of normalized readings. */
  datatype CircuitWindow = CircuitWindow(circuit: Id, readings: seq<Reading>)

  datatype Residual = Residual(circuit: Id, ts: Timestamp, fields: StlFields)

  /** What the seasonal layer does on a window; a calendar lookup failure is caught, any other error is not. */
  datatype StlOutcome = Residuals(residuals: seq<Residual>) | CalendarFailure | OtherFailure

  type StlLayer = seq<Reading> -> StlOutcome

  datatype PipelineError = StlError | InvalidRow

  type StlIndex = map<Id, map<Timestamp, StlFields>>

  function CircuitStl(index: StlIndex, c: Id): map<Timestamp, StlFields> {
    if c in index then index[c] else map[]
  }

  /** The residuals of the windows that have a calendar, in order. */
  function AllResiduals(stl: StlLayer, windows: seq<CircuitWindow>): seq<Residual> {
    if windows == [] then []
    else
      var n := |windows| - 1;
      var outcome := stl(windows[n].readings);
      AllResiduals(stl, windows[..n]) + (if outcome.Residuals? then outcome.residuals else [])
  }

  predicate StandsAt(r: Residual, c: Id, ts: Timestamp) {
    r.circuit == c && r.ts == ts
  }

  /** Residual i is the last one of its circuit and instant. */
  ghost predicate IsLast(residuals: seq<Residual>, i: nat) {
    && i < |residuals|
    && forall j | i < j < |residuals| :: !StandsAt(residuals[j], residuals[i].circuit, residuals[i].ts)
  }

  /** The index has an entry exactly where a residual stands, and it is the last such residual's. */
  ghost predicate StlIndexed(index: StlIndex, residuals: seq<Residual>) {
    forall c, ts :: EntryIsLast(Lookup(CircuitStl(index, c), ts), residuals, c, ts)
  }

  ghost predicate EntryIsLast(entry: Option<StlFields>, residuals: seq<Residual>, c: Id, ts: Timestamp) {
    match entry
    case None => forall i | 0 <= i < |residuals| :: !StandsAt(residuals[i], c, ts)
    case Some(fields) =>
      exists i :: 0 <= i < |residuals| && StandsAt(residuals[i], c, ts) && IsLast(residuals, i)
                  && residuals[i].fields == fields
  }

  function WithResidual(index: StlIndex, r: Residual): StlIndex {
    index[r.circuit := CircuitStl(index, r.circuit)[r.ts := r.fields]]
  }

  lemma LastStays(residuals: seq<Residual>, r: Residual, i: nat)
    requires IsLast(residuals, i) && !StandsAt(r, residuals[i].circuit, residuals[i].ts)
    ensures IsLast(residuals + [r], i)
  {
  }

  lemma EntryStays(entry: Option<StlFields>, residuals: seq<Residual>, r: Residual, c: Id, ts: Timestamp)
    requires EntryIsLast(entry, residuals, c, ts) && !StandsAt(r, c, ts)
    ensures EntryIsLast(entry, residuals + [r], c, ts)
  {
    var more := residuals + [r];
    if entry.Some? {
      var i :| 0 <= i < |residuals| && StandsAt(residuals[i], c, ts) && IsLast(residuals, i)
               && residuals[i].fields == entry.value;
      LastStays(residuals, r, i);
      assert more[i] == residuals[i];
    }
  }

  /** Writing one more residual keeps the index exact. */
  lemma OneMoreResidual(index: StlIndex, residuals: seq<Residual>, r: Residual)
    requires StlIndexed(index, residuals)
    ensures StlIndexed(WithResidual(index, r), residuals + [r])
  {
    var after, more := WithResidual(index, r), residuals + [r];
    forall c, ts ensures EntryIsLast(Lookup(CircuitStl(after, c), ts), more, c, ts) {
      assert EntryIsLast(Lookup(CircuitStl(index, c), ts), residuals, c, ts);
      if StandsAt(r, c, ts) {
        assert IsLast(more, |residuals|) && more[|residuals|] == r;
      } else {
        EntryStays(Lookup(CircuitStl(index, c), ts), residuals, r, c, ts);
      }
    }
  }

  /** The index over all windows: exact unless some window fails with an error that nobody catches. */
  method IndexStl(stl: StlLayer, windows: seq<CircuitWindow>) returns (r: Result<StlIndex, PipelineError>)
    ensures r.Ok? <==> forall w | w in windows :: !stl(w.readings).OtherFailure?
    ensures r.Ok? ==> StlIndexed(r.value, AllResiduals(stl, windows))
    ensures r.Err? ==> r.error == StlError
  {
    var index: StlIndex := map[];
    for i := 0 to |windows|
      invariant forall w | w in windows[..i] :: !stl(w.readings).OtherFailure?
      invariant StlIndexed(index, AllResiduals(stl, windows[..i]))
    {
      assert windows[..i + 1] == windows[..i] + [windows[i]];
      assert windows[..i + 1][..i] == windows[..i];
      var outcome := stl(windows[i].readings);
      ghost var earlier := AllResiduals(stl, windows[..i]);
      assert AllResiduals(stl, windows[..i + 1]) == earlier + (if outcome.Residuals? then outcome.residuals else []);
      if outcome.OtherFailure? {
        return Err(StlError);
      }
      if outcome.CalendarFailure? {
        assert earlier + [] == earlier;
        continue;
      }
      index := AddWindow(index, outcome.residuals, earlier);
    }
    assert windows[..|windows|] == windows;
    return Ok(index);
  }

  /** The inner loop over one window's residuals. */
  method AddWindow(before: StlIndex, residuals: seq<Residual>, ghost earlier: seq<Residual>) returns (index: StlIndex)
    requires StlIndexed(before, earlier)
    ensures StlIndexed(index, earlier + residuals)
  {
    index := before;
    assert earlier + residuals[..0] == earlier;
    for j := 0 to |residuals|
      invariant StlIndexed(index, earlier + residuals[..j])
    {
      var residual := residuals[j];
      OneMoreResidual(index, earlier + residuals[..j], residual);
      assert earlier + residuals[..j + 1] == earlier + residuals[..j] + [residual];
      index := index[residual.circuit := CircuitStl(index, residual.circuit)[residual.ts := residual.fields]];
    }
    assert residuals[..|residuals|] == residuals;
  }

  function TotalReadings(windows: seq<CircuitWindow>): nat {
    if windows == [] then 0 else TotalReadings(windows[..|windows| - 1]) + |windows[|windows| - 1].readings|
  }

  /** The rows say exactly which rules fired at their circuit and instant. */
  ghost predicate FlagsAreFirings(rows: seq<FeatureRow>, b: Building, rules: seq<Rule>, readings: seq<EngineReading>) {
    forall row, ruleId | row in rows ::
      Flagged(row.ruleFires, ruleId) <==> FiredAt(b, rules, readings, Some(row.circuit), row.ts, ruleId)
  }

  lemma LastIsUnique(residuals: seq<Residual>, c: Id, ts: Timestamp, a: Option<StlFields>, b: Option<StlFields>)
    requires EntryIsLast(a, residuals, c, ts) && EntryIsLast(b, residuals, c, ts)
    ensures a == b
  {
    if a.Some? && b.Some? {
      var i :| 0 <= i < |residuals| && StandsAt(residuals[i], c, ts) && IsLast(residuals, i) &&
          residuals[i].fields == a.value;
      var j :| 0 <= j < |residuals| && StandsAt(residuals[j], c, ts) && IsLast(residuals, j) &&
          residuals[j].fields == b.value;
      assert i == j;
    }
  }

  /** The k-th row of a window satisfies the record's constraints: its ratios and its residual magnitude do. */
  ghost predicate RowAllowed(stats: RollingStats, readings: seq<Reading>, residuals: seq<Residual>, c: Id, k: nat)
    requires k < |Sort(readings, NoLater)|
  {
    var sorted := Sort(readings, NoLater);
    && RollingValid(stats(sorted, k))
    && forall entry | EntryIsLast(entry, residuals, c, sorted[k].ts) :: entry.Some? ==>
       NonNegative(entry.value.residualMagnitude)
  }

  ghost predicate WindowAllowed(stats: RollingStats, w: CircuitWindow, residuals: seq<Residual>) {
    forall k: nat | k < |Sort(w.readings, NoLater)| :: RowAllowed(stats, w.readings, residuals, w.circuit, k)
  }

  lemma RowAllowedExactly(stats: RollingStats, readings: seq<Reading>, index: StlIndex, fires: map<Timestamp, Flags>,
                          residuals: seq<Residual>, c: Id, k: nat)
    requires k < |Sort(readings, NoLater)| && StlIndexed(index, residuals)
    ensures RowValid(RowAt(stats, Sort(readings, NoLater), k, CircuitStl(index, c), fires))
            <==> RowAllowed(stats, readings, residuals, c, k)
  {
    var ts := Sort(readings, NoLater)[k].ts;
    var entry := Lookup(CircuitStl(index, c), ts);
    assert EntryIsLast(entry, residuals, c, ts);
    forall other | EntryIsLast(other, residuals, c, ts) ensures other == entry {
      LastIsUnique(residuals, c, ts, other, entry);
    }
  }

  lemma WindowAllowedExactly(stats: RollingStats, w: CircuitWindow, index: StlIndex, fires: map<Timestamp, Flags>,
                             residuals: seq<Residual>)
    requires StlIndexed(index, residuals)
    ensures (forall row | row in Rows(stats, w.readings, CircuitStl(index, w.circuit), fires) :: RowValid(row))
            <==> WindowAllowed(stats, w, residuals)
  {
    var sorted, rows := Sort(w.readings, NoLater), Rows(stats, w.readings, CircuitStl(index, w.circuit), fires);
    forall k: nat | k < |sorted| ensures RowValid(rows[k]) <==> RowAllowed(stats, w.readings, residuals, w.circuit, k) {
      RowAllowedExactly(stats, w.readings, index, fires, residuals, w.circuit, k);
    }
    if forall row | row in rows :: RowValid(row) {
      forall k: nat | k < |sorted| ensures RowAllowed(stats, w.readings, residuals, w.circuit, k) {
        assert rows[k] in rows;
      }
    }
  }

  /** Every row's STL columns are the last residual's of its circuit and instant, or the defaults. */
  ghost predicate StlColumns(rows: seq<FeatureRow>, residuals: seq<Residual>) {
    forall row | row in rows :: StlColumn(row, residuals)
  }

  ghost predicate StlColumn(row: FeatureRow, residuals: seq<Residual>) {
    exists entry :: EntryIsLast(entry, residuals, row.circuit, row.ts) && TakesStl(row, entry)
  }

  /**
   Raises if a window's analysis fails uncaught or a row breaks a field constraint. Otherwise one row per reading;
   a row's flag for a rule is set exactly when that rule fired at its circuit and instant, and its STL columns are
   the last residual's there.
   */
  method RunBatch(b: Building, rules: seq<Rule>, engineReadings: seq<EngineReading>, windows: seq<CircuitWindow>,
                  stats: RollingStats, stl: StlLayer)
    returns (r: Result<seq<FeatureRow>, PipelineError>)
    requires forall w, reading | w in windows && reading in w.readings :: reading.circuit == w.circuit
    ensures r == Err(StlError) <==> exists w :: w in windows && stl(w.readings).OtherFailure?
    ensures r.Ok? <==> (forall w | w in windows :: !stl(w.readings).OtherFailure?)
                       && (forall w | w in windows :: WindowAllowed(stats, w, AllResiduals(stl, windows)))
    ensures r.Ok? ==>
              && |r.value| == TotalReadings(windows)
              && FlagsAreFirings(r.value, b, rules, engineReadings)
              && StlColumns(r.value, AllResiduals(stl, windows))
              && forall row | row in r.value :: RowValid(row)
  {
    var findings := ProcessReadings(b, rules, engineReadings);
    var fires := IndexRuleFires(findings);
    var indexed := IndexStl(stl, windows);
    if indexed.Err? {
      return Err(indexed.error);
    }
    r := AssembleAll(windows, stats, indexed.value, fires, findings, AllResiduals(stl, windows), b, rules,
                     engineReadings);
  }

  /** The assembly loop over the circuits. */
  method AssembleAll(windows: seq<CircuitWindow>, stats: RollingStats, stlIndex: StlIndex, fires: FiringIndex,
                     ghost findings: seq<Finding>, ghost residuals: seq<Residual>, ghost b: Building,
                     ghost rules: seq<Rule>, ghost engineReadings: seq<EngineReading>)
    returns (r: Result<seq<FeatureRow>, PipelineError>)
    requires forall w, reading | w in windows && reading in w.readings :: reading.circuit == w.circuit
    requires StlIndexed(stlIndex, residuals) && Indexes(fires, findings)
    requires forall f :: f in findings <==> FiredAt(b, rules, engineReadings, f.circuit, f.ts, f.ruleId)
    ensures r.Err? ==> r.error == InvalidRow
    ensures r.Ok? <==> forall w | w in windows :: WindowAllowed(stats, w, residuals)
    ensures r.Ok? ==>
              && |r.value| == TotalReadings(windows)
              && FlagsAreFirings(r.value, b, rules, engineReadings)
              && StlColumns(r.value, residuals)
              && forall row | row in r.value :: RowValid(row)
  {
    var features: seq<FeatureRow> := [];
    for i := 0 to |windows|
      invariant |features| == TotalReadings(windows[..i])
      invariant FlagsAreFirings(features, b, rules, engineReadings) && StlColumns(features, residuals)
      invariant forall row | row in features :: RowValid(row)
      invariant forall w | w in windows[..i] :: WindowAllowed(stats, w, residuals)
    {
      var w := windows[i];
      assert windows[..i + 1] == windows[..i] + [w];
      WindowAllowedExactly(stats, w, stlIndex, CircuitFlags(fires, w.circuit), residuals);
      assert windows[..i + 1][..i] == windows[..i];
      var rows := Assemble(stats, w.readings, CircuitStl(stlIndex, w.circuit), CircuitFlags(fires, w.circuit));
      if rows.Err? {
        return Err(rows.error);
      }
      RowsMatchReadings(stats, w.readings, CircuitStl(stlIndex, w.circuit), CircuitFlags(fires, w.circuit));
      RowsShowFirings(rows.value, w.circuit, fires, findings, b, rules, engineReadings);
      RowsShowStl(rows.value, w.circuit, stlIndex, residuals);
      features := features + rows.value;
    }
    assert windows[..|windows|] == windows;
    return Ok(features);
  }

  lemma RowsShowStl(rows: seq<FeatureRow>, c: Id, index: StlIndex, residuals: seq<Residual>)
    requires StlIndexed(index, residuals)
    requires forall row | row in rows :: row.circuit == c && TakesStl(row, Lookup(CircuitStl(index, c), row.ts))
    ensures StlColumns(rows, residuals)
  {
    forall row | row in rows ensures StlColumn(row, residuals) {
      assert EntryIsLast(Lookup(CircuitStl(index, c), row.ts), residuals, row.circuit, row.ts);
    }
  }

  lemma RowsShowFirings(rows: seq<FeatureRow>, c: Id, fires: FiringIndex, findings: seq<Finding>,
                        b: Building, rules: seq<Rule>, readings: seq<EngineReading>)
    requires Indexes(fires, findings)
    requires forall f :: f in findings <==> FiredAt(b, rules, readings, f.circuit, f.ts, f.ruleId)
    requires forall row | row in rows :: row.circuit == c && row.ruleFires == FlagsAt(CircuitFlags(fires, c), row.ts)
    ensures FlagsAreFirings(rows, b, rules, readings)
  {
    forall row, ruleId | row in rows
      ensures Flagged(row.ruleFires, ruleId) <==> FiredAt(b, rules, readings, Some(row.circuit), row.ts, ruleId)
    {
      assert Finding(Some(c), row.ts, ruleId) in findings <==> FiredAt(b, rules, readings, Some(c), row.ts, ruleId);
    }
  }

  /** End to end: the column named after a rule is 1 exactly where that rule fired, and 0 elsewhere. */
  lemma ColumnShowsFiring(features: seq<FeatureRow>, row: FeatureRow, ruleIds: seq<string>, ruleId: string, k: nat,
                          b: Building, rules: seq<Rule>, readings: seq<EngineReading>)
    requires FlagsAreFirings(features, b, rules, readings) && row in features
    requires Distinct(ruleIds) && ruleId in ruleIds
    requires k < |FeatureNames(ruleIds)| && FeatureNames(ruleIds)[k] == "rule_fire_" + ruleId
    ensures k < |ToNumericVector(row, ruleIds)|
    ensures ToNumericVector(row, ruleIds)[k] ==
            if FiredAt(b, rules, readings, Some(row.circuit), row.ts, ruleId) then 1.0 else 0.0
  {
    RuleColumn(row, ruleIds, ruleId, k);
  }
}
