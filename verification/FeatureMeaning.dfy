/** What a feature row's columns show, which rows are valid, and when a threshold rule fires. */
module FeatureMeaning {
  import opened Wrappers
  import opened IngestionModels
  import opened FeaturePipeline
  import R = RuleConditions
  import M = RuleMeaning

  // ---------------------------------------------------------------- columns

  /** The column holds the field, or zero where the field is absent. */
  predicate Shows(x: real, field: Option<real>) {
    field == Some(x) || (field == None && x == 0.0)
  }

  /** The seven base columns by name. */
  lemma BaseColumns(row: FeatureRow, ruleIds: seq<string>)
    ensures var v, names := ToNumericVector(row, ruleIds), FeatureNames(ruleIds);
            && |v| == |names| == 7 + |ruleIds|
            && names[0] == "rolling_baseline_kwh" && Shows(v[0], row.rolling.baseline)
            && names[1] == "peak_offpeak_split" && Shows(v[1], row.rolling.peakSplit)
            && names[2] == "after_hours_kwh_ratio" && Shows(v[2], row.rolling.afterHours)
            && names[3] == "weekend_floor_load" && Shows(v[3], row.rolling.weekendFloor)
            && names[4] == "rolling_efficiency_ratio" && Shows(v[4], row.rolling.efficiency)
            && names[5] == "stl_residual_magnitude" && Shows(v[5], row.stlMagnitude)
            && names[6] == "day_type_encoded"
  {
  }

  /** The day-type column tells weekends, holidays and declared closures apart; everything else is 0. */
  lemma DayTypeColumn(row: FeatureRow, ruleIds: seq<string>)
    ensures var code := ToNumericVector(row, ruleIds)[6];
            && (code == 1.0 <==> row.dayType == "weekend")
            && (code == 2.0 <==> row.dayType == "holiday")
            && (code == 3.0 <==> row.dayType == "declared_closure")
            && (code == 0.0 <==> row.dayType !in {"weekend", "holiday", "declared_closure"})
  {
  }

  /** No two columns share a name. */
  lemma ColumnsDistinct(ruleIds: seq<string>)
    requires Distinct(ruleIds)
    ensures Distinct(FeatureNames(ruleIds))
  {
    var names := FeatureNames(ruleIds);
    BaseNamesDistinct();
    forall i, j | 0 <= i < j < |names| ensures names[i] != names[j] {
      if j < 7 {
        assert names[i] == BASE_NAMES[i] && names[j] == BASE_NAMES[j];
      } else if i < 7 {
        BaseIsNoRule(i, ruleIds[j - 7]);
      } else {
        RuleNamesDiffer(ruleIds[i - 7], ruleIds[j - 7]);
      }
    }
  }

  lemma BaseNamesDistinct()
    ensures Distinct(BASE_NAMES)
  {
    assert |BASE_NAMES| == 7;
    assert BASE_NAMES[0][8] == 'b' && BASE_NAMES[4][8] == 'e';
    assert BASE_NAMES[0][0] == 'r' && BASE_NAMES[1][0] == 'p' && BASE_NAMES[2][0] == 'a' && BASE_NAMES[3][0] == 'w';
    assert BASE_NAMES[4][0] == 'r' && BASE_NAMES[5][0] == 's' && BASE_NAMES[6][0] == 'd';
  }

  lemma BaseIsNoRule(i: nat, r: string)
    requires i < 7
    ensures BASE_NAMES[i] != "rule_fire_" + r
  {
    assert ("rule_fire_" + r)[0] == 'r' && ("rule_fire_" + r)[1] == 'u';
    assert BASE_NAMES[i][0] != 'r' || BASE_NAMES[i][1] != 'u';
  }

  lemma RuleNamesDiffer(r: string, s: string)
    requires r != s
    ensures "rule_fire_" + r != "rule_fire_" + s
  {
    assert ("rule_fire_" + r)[10..] == r && ("rule_fire_" + s)[10..] == s;
  }

  // ---------------------------------------------------------------- the order of rule ids

  /** The strings agree up to place k, and there a has the smaller character. */
  ghost predicate SmallerAt(a: string, b: string, k: nat) {
    k < |a| && k < |b| && a[..k] == b[..k] && a[k] < b[k]
  }

  /** One id stands before another when it is a prefix, or smaller at the first place where they differ. */
  lemma {:induction false} StringOrderMeans(a: string, b: string)
    ensures StringLeq(a, b) <==> a <= b || exists k: nat :: SmallerAt(a, b, k)
  {
    if a != "" && b != "" {
      if a[0] == b[0] {
        StringOrderMeans(a[1..], b[1..]);
        SmallerInTail(a, b);
      } else {
        assert a[0] < b[0] ==> SmallerAt(a, b, 0);
        if k: nat :| SmallerAt(a, b, k) {
          assert k > 0 ==> a[..k][0] == b[..k][0];
        }
      }
    }
  }

  lemma SmallerInTail(a: string, b: string)
    requires a != "" && b != "" && a[0] == b[0]
    ensures a <= b <==> a[1..] <= b[1..]
    ensures (exists k: nat :: SmallerAt(a, b, k)) <==> exists k: nat :: SmallerAt(a[1..], b[1..], k)
  {
    var c, d := a[1..], b[1..];
    assert a == [a[0]] + c && b == [b[0]] + d;
    if k: nat :| SmallerAt(c, d, k) {
      assert a[..k + 1] == [a[0]] + c[..k] && b[..k + 1] == [b[0]] + d[..k];
      assert SmallerAt(a, b, k + 1);
    }
    if k: nat :| SmallerAt(a, b, k) {
      assert k > 0;
      assert c[..k - 1] == a[..k][1..] && d[..k - 1] == b[..k][1..];
      assert SmallerAt(c, d, k - 1);
    }
    if a <= b {
      assert c == b[..|a|][1..] == d[..|c|];
    }
    if c <= d {
      assert a == [a[0]] + d[..|c|] == b[..|a|];
    }
  }

  // ---------------------------------------------------------------- valid rows

  predicate Below(x: Option<real>, bound: real) { x.Some? && x.value < bound }

  /** A row is refused exactly when a ratio or the magnitude is negative, or the peak share exceeds one. */
  lemma RowValidMeans(row: FeatureRow)
    ensures !RowValid(row) <==>
            || Below(row.rolling.peakSplit, 0.0) || Below(row.rolling.afterHours, 0.0)
            || Below(row.rolling.weekendFloor, 0.0) || Below(row.rolling.efficiency, 0.0)
            || Below(row.stlMagnitude, 0.0)
            || (row.rolling.peakSplit.Some? && 1.0 < row.rolling.peakSplit.value)
  {
  }

  /** The number of rows a batch owes is the number of readings, window by window. */
  lemma TotalReadingsMeans(windows: seq<CircuitWindow>, w: CircuitWindow)
    ensures TotalReadings([]) == 0
    ensures TotalReadings(windows + [w]) == TotalReadings(windows) + |w.readings|
  {
    assert (windows + [w])[..|windows|] == windows;
  }

  /** A rule without a scope applies everywhere; each further key narrows it to contexts with that entry. */
  lemma ScopeMeans(scope: map<string, string>, key: string, value: string, ctx: R.Context)
    requires key !in scope
    ensures MatchesAppliesTo(map[], ctx)
    ensures MatchesAppliesTo(scope[key := value], ctx) <==>
            MatchesAppliesTo(scope, ctx) && key in ctx && ctx[key] == R.Str(value)
  {
    var narrowed := scope[key := value];
    assert forall k | k in scope :: k in narrowed && narrowed[k] == scope[k];
    assert key in narrowed;
  }

  // ---------------------------------------------------------------- a threshold rule

  /** A rule for circuits of one type that compares the consumption with a threshold. */
  function ThresholdRule(id: string, circuitType: string, op: R.CmpOperator, threshold: real): Rule {
    Rule(id, map["circuit_type" := circuitType],
         Some(M.Link(R.Name("kwh"), op, R.Constant(R.Number(threshold)))))
  }

  /**
   Such a rule fires on a reading with a value exactly when the reading is not quarantined, has an instant, its
   circuit is declared to be of that type, and the value stands in the relation to the threshold.
   */
  lemma ThresholdRuleFires(b: Building, id: string, circuitType: string, op: R.CmpOperator, threshold: real,
                           r: EngineReading)
    requires M.NumericOperator(op) && r.kwh.Some?
    ensures Fires(b, ThresholdRule(id, circuitType, op, threshold), r) <==>
            && r.status != Quarantined && r.ts.Some?
            && r.circuit.Some? && r.circuit.value in b.circuitTypes && b.circuitTypes[r.circuit.value] == circuitType
            && M.Related(op, r.kwh.value, threshold)
  {
    if r.ts.Some? {
      var ctx := ContextOf(b, r);
      ContextHolds(b, r);
      M.ThresholdMeans(b.rt, ctx, "kwh", op, r.kwh.value, threshold);
    }
  }

  lemma ContextHolds(b: Building, r: EngineReading)
    requires r.ts.Some? && r.kwh.Some?
    ensures var ctx := ContextOf(b, r);
            && "kwh" in ctx && ctx["kwh"] == R.Number(r.kwh.value)
            && "circuit_type" in ctx
            && ctx["circuit_type"] == (if r.circuit.Some? && r.circuit.value in b.circuitTypes
                                       then R.Str(b.circuitTypes[r.circuit.value]) else R.NoneValue)
  {
    assert |"kwh"| == 3 && |"ts"| == 2 && |"building"| == 8 && |"circuit_type"| == 12;
  }

  /** A reading without a value fires no such rule whose comparison Python cannot make. */
  lemma ThresholdNeedsValue(b: Building, id: string, circuitType: string, op: R.CmpOperator, threshold: real,
                            r: EngineReading)
    requires M.NumericOperator(op) && r.kwh.None? && b.rt.compare(op, R.NoneValue, R.Number(threshold)) != Some(true)
    ensures !Fires(b, ThresholdRule(id, circuitType, op, threshold), r)
  {
    if r.ts.Some? {
      var ctx := ContextOf(b, r);
      assert |"kwh"| == 3 && |"ts"| == 2 && |"building"| == 8 && |"circuit_type"| == 12;
      assert ctx["kwh"] == R.NoneValue;
      M.LinkValue(b.rt, ctx, R.Name("kwh"), op, R.Constant(R.Number(threshold)), R.NoneValue, R.Number(threshold));
    }
  }
}
