/** Normalising a batch: resampling, the two status tables, their merge per hour, and the interpolation ratio. */
module Normalization {
  import opened Wrappers
  import opened IngestionModels
  import opened Runs
  import opened GapScan
  import Guard = RollingGuard
  import QualityGate

  datatype Config = Config(maxGapMinutes: int, threshold: real, windowSize: nat, degradedRatio: real)

  /** Filling short gaps is the data frame library's work; what it makes of the hourly values is a parameter. */
  type Interpolation = seq<Option<real>> -> seq<Option<real>>

  datatype Row = Row(circuit: Id, ts: int, kwh: Option<real>, status: Status)

  /** One meter's rows of the batch; grouping never yields an empty group. */
  datatype Group = Group(meter: string, readings: seq<RawReading>)

  // ---------------------------------------------------------------- one circuit

  function Hourly(readings: seq<RawReading>): seq<Option<real>>
    requires readings != []
  {
    Resampled(readings, IndexStart(readings), IndexLength(readings))
  }

  /** The series the outlier guard sees: present values with their hours. */
  function Series(start: int, values: seq<Option<real>>): seq<Sample> {
    if values == [] then []
    else
      var n := |values| - 1;
      Series(start, values[..n]) + (if values[n].Some? then [Sample(start + HOUR * n, values[n].value)] else [])
  }

  function GapStatuses(readings: seq<RawReading>, config: Config): map<int, Status>
    requires readings != []
  {
    QuarantinedAt(QuarantinedHours(RunsOf(Missing(Hourly(readings))), IndexStart(readings), config.maxGapMinutes))
  }

  function OutlierStatuses(series: seq<Sample>, config: Config): map<int, Status>
    requires config.windowSize >= 1
  {
    Guard.DegradedAt(Guard.FlaggedStamps(series, Guard.Outliers(series, config.windowSize, config.threshold)))
  }

  function MergedStatus(gaps: map<int, Status>, outliers: map<int, Status>, ts: int): Status {
    WorseStatus(WorseStatus(Pass, StatusAt(gaps, ts)), StatusAt(outliers, ts))
  }

  /** The rows of one circuit, hour by hour. */
  function MergedRows(circuit: Id, start: int, values: seq<Option<real>>, gaps: map<int, Status>,
                      outliers: map<int, Status>)
    : (rows: seq<Row>)
    ensures |rows| == |values|
    ensures forall k | 0 <= k < |rows| ::
              rows[k] == Row(circuit, start + HOUR * k, values[k], MergedStatus(gaps, outliers, start + HOUR * k))
  {
    seq(|values|, k requires 0 <= k < |values| =>
          Row(circuit, start + HOUR * k, values[k], MergedStatus(gaps, outliers, start + HOUR * k)))
  }

  function CircuitRows(circuit: Id, readings: seq<RawReading>, config: Config, fill: Interpolation): seq<Row>
    requires readings != [] && config.windowSize >= 1
  {
    var start, values := IndexStart(readings), fill(Hourly(readings));
    MergedRows(circuit, start, values, GapStatuses(readings, config), OutlierStatuses(Series(start, values), config))
  }

  /** Position k lies in a maximal run of missing hours beyond the limit. */
  ghost predicate LongGapAt(missing: seq<bool>, maxGapMinutes: int, k: nat) {
    exists g :: IsMaximal(missing, g) && Covers(g, k) && TooLong(g, maxGapMinutes)
  }

  /** The guard flags the value standing at this instant. */
  ghost predicate OutlierAt(series: seq<Sample>, config: Config, ts: int)
    requires config.windowSize >= 1
  {
    exists i :: 0 <= i < |series| && Guard.Flagged(series, i, config.windowSize, config.threshold) && series[i].ts == ts
  }

  /** What a row's status says: a long gap quarantines, an outlier outside one degrades, everything else passes. */
  lemma RowStatusMeans(circuit: Id, readings: seq<RawReading>, config: Config, fill: Interpolation, k: nat)
    requires readings != [] && config.windowSize >= 1 && k < |CircuitRows(circuit, readings, config, fill)|
    ensures var row := CircuitRows(circuit, readings, config, fill)[k];
            var series := Series(IndexStart(readings), fill(Hourly(readings)));
            row.status == if LongGapAt(Missing(Hourly(readings)), config.maxGapMinutes, k) then Quarantined
                          else if OutlierAt(series, config, row.ts) then Degraded
                          else Pass
  {
    var start, values := IndexStart(readings), fill(Hourly(readings));
    MergedRowMeans(circuit, start, values, Missing(Hourly(readings)), Series(start, values), config, k,
                   start + HOUR * k,
                   GapStatuses(readings, config), OutlierStatuses(Series(start, values), config));
  }

  lemma MergedRowMeans(circuit: Id, start: int, values: seq<Option<real>>, missing: seq<bool>, series: seq<Sample>,
                       config: Config, k: nat, ts: int, gaps: map<int, Status>, outliers: map<int, Status>)
    requires config.windowSize >= 1 && k < |values| && ts == start + HOUR * k
    requires gaps == QuarantinedAt(QuarantinedHours(RunsOf(missing), start, config.maxGapMinutes))
    requires outliers == OutlierStatuses(series, config)
    ensures MergedRows(circuit, start, values, gaps, outliers)[k].status ==
            if LongGapAt(missing, config.maxGapMinutes, k) then Quarantined
            else if OutlierAt(series, config, ts) then Degraded
            else Pass
  {
    GapStatusMeans(missing, start, config.maxGapMinutes, k);
    OutlierStatusMeans(circuit, series, config, ts);
    MergedRowFrom(circuit, start, values, gaps, outliers, k, LongGapAt(missing, config.maxGapMinutes, k),
                  OutlierAt(series, config, ts));
  }

  lemma MergedRowFrom(circuit: Id, start: int, values: seq<Option<real>>, gaps: map<int, Status>,
                      outliers: map<int, Status>,
                      k: nat, longGap: bool, outlier: bool)
    requires k < |values|
    requires StatusAt(gaps, start + HOUR * k) == if longGap then Quarantined else Pass
    requires StatusAt(outliers, start + HOUR * k) == if outlier then Degraded else Pass
    ensures var row := MergedRows(circuit, start, values, gaps, outliers)[k];
            row.ts == start + HOUR * k
            && row.status == if longGap then Quarantined else if outlier then Degraded else Pass
  {
  }

  lemma GapStatusMeans(missing: seq<bool>, start: int, maxGapMinutes: int, k: nat)
    ensures StatusAt(QuarantinedAt(QuarantinedHours(RunsOf(missing), start, maxGapMinutes)), start + HOUR * k)
            == if LongGapAt(missing, maxGapMinutes, k) then Quarantined else Pass
  {
    QuarantinedIff(missing, start, maxGapMinutes, k);
  }

  lemma OutlierStatusMeans(circuit: Id, series: seq<Sample>, config: Config, ts: int)
    requires config.windowSize >= 1
    ensures StatusAt(OutlierStatuses(series, config), ts) == if OutlierAt(series, config, ts) then Degraded else Pass
  {
    var mask := Guard.Outliers(series, config.windowSize, config.threshold);
    Guard.FlaggedStampsAre(series, mask, circuit, ts);
    assert (exists i :: 0 <= i < |series| && mask[i] && series[i].ts == ts) <==> OutlierAt(series, config, ts);
  }

  /** The readings in memory hold the given rows, one object each. */
  ghost predicate Holds(readings: seq<QualityGate.Reading>, rows: seq<Row>)
    reads readings
  {
    |readings| == |rows| && forall k | 0 <= k < |rows| ::
      Row(readings[k].circuit, readings[k].ts, readings[k].kwh, readings[k].status) == rows[k]
  }

  /** The loop over the resampled hours. */
  method MergeStatuses(circuit: Id, start: int, values: seq<Option<real>>, gaps: map<int, Status>,
                       outliers: map<int, Status>)
    returns (readings: seq<QualityGate.Reading>)
    ensures fresh(readings) && Holds(readings, MergedRows(circuit, start, values, gaps, outliers))
  {
    readings := [];
    ghost var rows := MergedRows(circuit, start, values, gaps, outliers);
    for k := 0 to |values|
      invariant |readings| == k && fresh(readings) && Holds(readings, rows[..k])
    {
      var ts := start + HOUR * k;
      var status := Pass;
      status := WorseStatus(status, StatusAt(gaps, ts));
      status := WorseStatus(status, StatusAt(outliers, ts));
      var reading := new QualityGate.Reading(circuit, ts, values[k], status);
      readings := readings + [reading];
    }
    assert rows[..|values|] == rows;
  }

  function CircuitIssues(circuit: Id, readings: seq<RawReading>, config: Config, fill: Interpolation): seq<QualityIssue>
    requires readings != [] && config.windowSize >= 1
  {
    var start := IndexStart(readings);
    var series := Series(start, fill(Hourly(readings)));
    GapIssues(RunsOf(Missing(Hourly(readings))), start, circuit, config.maxGapMinutes)
    + Guard.OutlierIssues(series, Guard.Outliers(series, config.windowSize, config.threshold), circuit)
  }

  function CountPresent(values: seq<Option<real>>): nat {
    if values == [] then 0 else CountPresent(values[..|values| - 1]) + (if values[|values| - 1].Some? then 1 else 0)
  }

  method NormalizeCircuit(circuit: Id, raw: seq<RawReading>, config: Config, fill: Interpolation)
    returns (readings: seq<QualityGate.Reading>, issues: seq<QualityIssue>, present: nat)
    requires raw != [] && config.windowSize >= 1
    ensures fresh(readings) && Holds(readings, CircuitRows(circuit, raw, config, fill))
    ensures issues == CircuitIssues(circuit, raw, config, fill)
    ensures present == CountPresent(fill(Hourly(raw)))
  {
    var hourly, gapIssues, gapStatuses := ResampleCircuit(raw, circuit, config.maxGapMinutes);
    var values := fill(hourly);
    present := CountPresent(values);
    var outlierIssues, outlierStatuses :=
      Guard.RollingZscoreGuard(Series(IndexStart(raw), values), circuit, config.threshold, config.windowSize);
    issues := gapIssues + outlierIssues;
    readings := MergeStatuses(circuit, IndexStart(raw), values, gapStatuses, outlierStatuses);
  }

  // ---------------------------------------------------------------- the batch

  /** The batch before the interpolation ratio is judged. */
  datatype Draft = Draft(rows: seq<Row>, issues: seq<QualityIssue>, interpolated: nat, total: nat)

  function Excess(present: nat, original: nat): nat {
    if present > original then present - original else 0
  }

  function Add(d: Draft, g: Group, circuitMap: map<string, Id>, config: Config, fill: Interpolation): Draft
    requires g.readings != [] && config.windowSize >= 1
  {
    if g.meter !in circuitMap then
      d.(issues := d.issues + [QualityIssue(UnmappedCircuit, Quarantined, None, None, None)])
    else
      var circuit, present := circuitMap[g.meter], CountPresent(fill(Hourly(g.readings)));
      Draft(d.rows + CircuitRows(circuit, g.readings, config, fill),
            d.issues + CircuitIssues(circuit, g.readings, config, fill),
            d.interpolated + Excess(present, |g.readings|),
            d.total + present)
  }

  function DraftOf(groups: seq<Group>, circuitMap: map<string, Id>, config: Config, fill: Interpolation): Draft
    requires config.windowSize >= 1 && forall g | g in groups :: g.readings != []
  {
    if groups == [] then Draft([], [], 0, 0)
    else Add(DraftOf(groups[..|groups| - 1], circuitMap, config, fill), groups[|groups| - 1], circuitMap, config, fill)
  }

  /** The share of present hours the batch calls interpolated exceeds the configured ratio. */
  predicate HighRatio(d: Draft, limit: real) {
    d.total > 0 && d.interpolated as real / d.total as real > limit
  }

  function Softened(s: Status): Status {
    if s == Pass then Degraded else s
  }

  /** The rows after a high ratio has turned every pass into a degraded. */
  function SoftenedRows(rows: seq<Row>): (soft: seq<Row>)
    ensures |soft| == |rows| && forall k | 0 <= k < |rows| :: soft[k] == rows[k].(status := Softened(rows[k].status))
  {
    seq(|rows|, k requires 0 <= k < |rows| => rows[k].(status := Softened(rows[k].status)))
  }

  method NormalizeBatch(groups: seq<Group>, circuitMap: map<string, Id>, config: Config, fill: Interpolation)
    returns (readings: seq<QualityGate.Reading>, issues: seq<QualityIssue>)
    requires config.windowSize >= 1 && forall g | g in groups :: g.readings != []
    ensures fresh(readings)
    ensures var d := DraftOf(groups, circuitMap, config, fill);
            && Holds(readings, if HighRatio(d, config.degradedRatio) then SoftenedRows(d.rows) else d.rows)
            && issues == d.issues + (if HighRatio(d, config.degradedRatio)
                                     then [QualityIssue(HighInterpolationRatio, Degraded, None, None, None)] else [])
    ensures var d := DraftOf(groups, circuitMap, config, fill);
            var high := TooMuchInterpolated(d, config.degradedRatio);
            && |readings| == |d.rows|
            && (high <==> exists i :: i in issues && i.issueType == HighInterpolationRatio)
            && (forall k | 0 <= k < |readings| ::
                  readings[k].status == if high && d.rows[k].status == Pass then Degraded else d.rows[k].status)
  {
    readings, issues := [], [];
    var interpolated, total := 0, 0;
    for i := 0 to |groups|
      invariant fresh(readings)
      invariant var d := DraftOf(groups[..i], circuitMap, config, fill);
                Holds(readings, d.rows) && issues == d.issues && interpolated == d.interpolated && total == d.total
    {
      var g := groups[i];
      assert groups[..i + 1][..i] == groups[..i];
      if g.meter !in circuitMap {
        issues := issues + [QualityIssue(UnmappedCircuit, Quarantined, None, None, None)];
        continue;
      }
      var circuitReadings, circuitIssues, present := NormalizeCircuit(circuitMap[g.meter], g.readings, config, fill);
      issues := issues + circuitIssues;
      interpolated, total := interpolated + Excess(present, |g.readings|), total + present;
      HoldsAppend(readings, circuitReadings, DraftOf(groups[..i], circuitMap, config, fill).rows,
                  CircuitRows(circuitMap[g.meter], g.readings, config, fill));
      readings := readings + circuitReadings;
    }
    assert groups[..|groups|] == groups;
    var extra := JudgeRatio(readings, DraftOf(groups, circuitMap, config, fill), interpolated, total,
                            config.degradedRatio);
    issues := issues + extra;
    NoRatioIssue(groups, circuitMap, config, fill);
    HighRatioMeans(DraftOf(groups, circuitMap, config, fill), config.degradedRatio);
    assert extra != [] ==> extra[0] in issues;
  }

  lemma HoldsAppend(a: seq<QualityGate.Reading>, b: seq<QualityGate.Reading>, rowsA: seq<Row>, rowsB: seq<Row>)
    requires Holds(a, rowsA) && Holds(b, rowsB)
    ensures Holds(a + b, rowsA + rowsB)
  {
  }

  /** The closing check on the interpolation counters. */
  method JudgeRatio(readings: seq<QualityGate.Reading>, ghost d: Draft, interpolated: nat, total: nat, limit: real)
    returns (issues: seq<QualityIssue>)
    requires Holds(readings, d.rows) && interpolated == d.interpolated && total == d.total
    modifies readings
    ensures Holds(readings, if HighRatio(d, limit) then SoftenedRows(d.rows) else d.rows)
    ensures issues == if HighRatio(d, limit)
            then [QualityIssue(HighInterpolationRatio, Degraded, None, None, None)] else []
  {
    issues := [];
    if total > 0 && interpolated as real / total as real > limit {
      Soften(readings);
      issues := [QualityIssue(HighInterpolationRatio, Degraded, None, None, None)];
    }
  }

  /** In place: every passing reading becomes degraded, nothing else changes. */
  method Soften(readings: seq<QualityGate.Reading>)
    modifies readings
    ensures forall r | r in readings :: r.status == Softened(old(r.status))
  {
    for j := 0 to |readings|
      invariant forall r | r in readings :: r.status == if r in readings[..j]
                then Softened(old(r.status)) else old(r.status)
    {
      assert readings[..j + 1] == readings[..j] + [readings[j]];
      if readings[j].status == Pass {
        readings[j].status := Degraded;
      }
    }
    assert readings[..|readings|] == readings;
  }

  // ---------------------------------------------------------------- what the ratio measures

  /** Hours that had no reading but carry a value after filling. */
  function FilledHours(groups: seq<Group>, circuitMap: map<string, Id>, fill: Interpolation): int
    requires forall g | g in groups :: g.readings != []
  {
    if groups == [] then 0
    else
      var g := groups[|groups| - 1];
      FilledHours(groups[..|groups| - 1], circuitMap, fill) + Filled(g, circuitMap, fill)
  }

  /** Hours can only be present because of readings, and one reading makes at most one hour present. */
  lemma {:induction false} PresentAtMostReadings(readings: seq<RawReading>, start: int, n: nat)
    ensures CountPresent(Resampled(readings, start, n)) <= |readings|
  {
    if readings == [] {
      NonePresent(start, n);
    } else {
      PresentAtMostReadings(readings[1..], start, n);
      OneReadingOneHour(readings, start, n);
    }
  }

  lemma {:induction false} NonePresent(start: int, n: nat)
    ensures CountPresent(Resampled([], start, n)) == 0
  {
    if n > 0 {
      NonePresent(start, n - 1);
      assert Resampled([], start, n)[..n - 1] == Resampled([], start, n - 1);
    }
  }

  lemma {:induction false} OneReadingOneHour(readings: seq<RawReading>, start: int, n: nat)
    requires readings != []
    ensures CountPresent(Resampled(readings, start, n)) <=
            CountPresent(Resampled(readings[1..], start, n)) + (if readings[0].ts < start + HOUR * n then 1 else 0)
  {
    if n > 0 {
      OneReadingOneHour(readings, start, n - 1);
      assert Resampled(readings, start, n)[..n - 1] == Resampled(readings, start, n - 1);
      assert Resampled(readings[1..], start, n)[..n - 1] == Resampled(readings[1..], start, n - 1);
    }
  }

  /** The counter never exceeds the hours that were really filled; where nothing gets worse, it only undercounts. */
  lemma {:induction false} InterpolationUndercounted(groups: seq<Group>, circuitMap: map<string, Id>, config: Config,
                                                     fill: Interpolation)
    requires config.windowSize >= 1 && forall g | g in groups :: g.readings != []
    requires forall hourly :: CountPresent(fill(hourly)) >= CountPresent(hourly)
    ensures DraftOf(groups, circuitMap, config, fill).interpolated <= FilledHours(groups, circuitMap, fill)
  {
    if groups != [] {
      var g := groups[|groups| - 1];
      InterpolationUndercounted(groups[..|groups| - 1], circuitMap, config, fill);
      AddedExactly(DraftOf(groups[..|groups| - 1], circuitMap, config, fill), g, circuitMap, config, fill);
    }
  }

  // ---------------------------------------------------------------- what the guard sees and reports

  /** The guard's series holds exactly the present hours, each under its own instant. */
  lemma {:induction false} SeriesMeans(start: int, values: seq<Option<real>>, ts: int, x: real)
    ensures Sample(ts, x) in Series(start, values) <==>
            exists k :: 0 <= k < |values| && values[k] == Some(x) && ts == start + HOUR * k
  {
    if values != [] {
      var n := |values| - 1;
      var front, all := Series(start, values[..n]), Series(start, values);
      SeriesMeans(start, values[..n], ts, x);
      assert Sample(ts, x) in all <==> Sample(ts, x) in front || (values[n] == Some(x) && ts == start + HOUR * n);
      if k :| 0 <= k < n && values[k] == Some(x) && ts == start + HOUR * k {
        assert values[..n][k] == Some(x);
      }
    }
  }

  lemma {:induction false} SeriesAscends(start: int, values: seq<Option<real>>)
    ensures forall i | 0 <= i < |Series(start, values)| :: Series(start, values)[i].ts < start + HOUR * |values|
    ensures forall i, j | 0 <= i < j < |Series(start, values)| ::
              Series(start, values)[i].ts < Series(start, values)[j].ts
  {
    if values != [] {
      SeriesAscends(start, values[..|values| - 1]);
    }
  }

  /** A circuit's issues: one per over-long maximal gap, and one per instant whose value the guard flags. */
  lemma CircuitIssuesExactly(circuit: Id, readings: seq<RawReading>, config: Config, fill: Interpolation, g: Run,
                             ts: int)
    requires readings != [] && config.windowSize >= 1
    ensures var issues, start := CircuitIssues(circuit, readings, config, fill), IndexStart(readings);
            var missing, series := Missing(Hourly(readings)), Series(start, fill(Hourly(readings)));
            && (GapIssue(g, start, circuit) in issues <==> IsMaximal(missing, g) && TooLong(g, config.maxGapMinutes))
            && (Guard.OutlierIssue(circuit, ts) in issues <==> OutlierAt(series, config, ts))
  {
    var start := IndexStart(readings);
    var missing, series := Missing(Hourly(readings)), Series(start, fill(Hourly(readings)));
    var gaps := GapIssues(RunsOf(missing), start, circuit, config.maxGapMinutes);
    var outliers := Guard.OutlierIssues(series, Guard.Outliers(series, config.windowSize, config.threshold), circuit);
    GapIssuesAre(RunsOf(missing), start, circuit, config.maxGapMinutes, g);
    RunsAreExactlyTheMaximal(missing, g);
    Guard.FlaggedStampsAre(series, Guard.Outliers(series, config.windowSize, config.threshold), circuit, ts);
    IssueTypes(RunsOf(missing), start, circuit, config.maxGapMinutes, series,
               Guard.Outliers(series, config.windowSize, config.threshold));
    assert forall i :: i in CircuitIssues(circuit, readings, config, fill) <==> i in gaps || i in outliers;
    FlaggedAt(series, config, circuit, ts);
  }

  lemma FlaggedAt(series: seq<Sample>, config: Config, circuit: Id, ts: int)
    requires config.windowSize >= 1
    ensures var mask := Guard.Outliers(series, config.windowSize, config.threshold);
            (exists i :: 0 <= i < |series| && mask[i] && series[i].ts == ts) <==> OutlierAt(series, config, ts)
  {
  }

  lemma {:induction false} GapTypes(gaps: seq<Run>, start: int, circuit: Id, maxGapMinutes: int)
    ensures forall i | i in GapIssues(gaps, start, circuit, maxGapMinutes) :: i.issueType == GapBeyondBound
  {
    if gaps != [] {
      GapTypes(gaps[..|gaps| - 1], start, circuit, maxGapMinutes);
    }
  }

  lemma {:induction false} OutlierTypes(s: seq<Sample>, mask: seq<bool>, circuit: Id)
    requires |s| == |mask|
    ensures forall i | i in Guard.OutlierIssues(s, mask, circuit) :: i.issueType == Outlier
  {
    if s != [] {
      OutlierTypes(s[..|s| - 1], mask[..|s| - 1], circuit);
    }
  }

  lemma IssueTypes(gaps: seq<Run>, start: int, circuit: Id, maxGapMinutes: int, s: seq<Sample>, mask: seq<bool>)
    requires |s| == |mask|
    ensures forall i | i in GapIssues(gaps, start, circuit, maxGapMinutes) :: i.issueType == GapBeyondBound
    ensures forall i | i in Guard.OutlierIssues(s, mask, circuit) :: i.issueType == Outlier
  {
    GapTypes(gaps, start, circuit, maxGapMinutes);
    OutlierTypes(s, mask, circuit);
  }

  // ---------------------------------------------------------------- what the counters count

  function KwhColumn(rows: seq<Row>): (values: seq<Option<real>>)
    ensures |values| == |rows| && forall k | 0 <= k < |rows| :: values[k] == rows[k].kwh
  {
    seq(|rows|, k requires 0 <= k < |rows| => rows[k].kwh)
  }

  lemma {:induction false} PresentAppend(a: seq<Option<real>>, b: seq<Option<real>>)
    ensures CountPresent(a + b) == CountPresent(a) + CountPresent(b)
  {
    if b == [] {
      assert a + b == a;
    } else {
      assert (a + b)[..|a + b| - 1] == a + b[..|b| - 1];
      PresentAppend(a, b[..|b| - 1]);
    }
  }

  /** The total counter is the number of rows of the batch that carry a value. */
  lemma {:induction false} TotalIsPresentRows(groups: seq<Group>, circuitMap: map<string, Id>, config: Config,
                                              fill: Interpolation)
    requires config.windowSize >= 1 && forall g | g in groups :: g.readings != []
    ensures var d := DraftOf(groups, circuitMap, config, fill); d.total == CountPresent(KwhColumn(d.rows))
  {
    if groups != [] {
      var front, g := groups[..|groups| - 1], groups[|groups| - 1];
      TotalIsPresentRows(front, circuitMap, config, fill);
      hide CircuitRows, CircuitIssues, CountPresent, KwhColumn;
      if g.meter in circuitMap {
        CircuitPresent(circuitMap[g.meter], g.readings, config, fill);
        PresentRowsAppend(DraftOf(front, circuitMap, config, fill).rows,
                          CircuitRows(circuitMap[g.meter], g.readings, config, fill));
      }
    } else {
      assert KwhColumn([]) == [];
    }
  }

  lemma PresentRowsAppend(a: seq<Row>, b: seq<Row>)
    ensures CountPresent(KwhColumn(a + b)) == CountPresent(KwhColumn(a)) + CountPresent(KwhColumn(b))
  {
    assert KwhColumn(a + b) == KwhColumn(a) + KwhColumn(b);
    PresentAppend(KwhColumn(a), KwhColumn(b));
  }

  lemma CircuitPresent(circuit: Id, readings: seq<RawReading>, config: Config, fill: Interpolation)
    requires readings != [] && config.windowSize >= 1
    ensures CountPresent(KwhColumn(CircuitRows(circuit, readings, config, fill)))
            == CountPresent(fill(Hourly(readings)))
  {
    assert KwhColumn(CircuitRows(circuit, readings, config, fill)) == fill(Hourly(readings));
  }

  /** Every reading of the group made an hour of its own present, or filling added nothing. */
  predicate CountedExactly(g: Group, circuitMap: map<string, Id>, fill: Interpolation)
    requires g.readings != []
  {
    g.meter in circuitMap ==>
      CountPresent(Hourly(g.readings)) == |g.readings|
      || CountPresent(fill(Hourly(g.readings))) == CountPresent(Hourly(g.readings))
  }

  /** The interpolation counter is the number of filled hours exactly when each mapped group is counted exactly. */
  lemma {:induction false} InterpolationExactly(groups: seq<Group>, circuitMap: map<string, Id>, config: Config,
                                                fill: Interpolation)
    requires config.windowSize >= 1 && forall g | g in groups :: g.readings != []
    requires forall hourly :: CountPresent(fill(hourly)) >= CountPresent(hourly)
    ensures DraftOf(groups, circuitMap, config, fill).interpolated == FilledHours(groups, circuitMap, fill)
            <==> forall g | g in groups :: CountedExactly(g, circuitMap, fill)
  {
    if groups != [] {
      var front, g := groups[..|groups| - 1], groups[|groups| - 1];
      assert groups == front + [g];
      InterpolationExactly(front, circuitMap, config, fill);
      InterpolationUndercounted(front, circuitMap, config, fill);
      AddedExactly(DraftOf(front, circuitMap, config, fill), g, circuitMap, config, fill);
      assert DraftOf(groups, circuitMap, config, fill)
          == Add(DraftOf(front, circuitMap, config, fill), g, circuitMap, config, fill);
      assert FilledHours(groups, circuitMap, fill)
          == FilledHours(front, circuitMap, fill) + Filled(g, circuitMap, fill);
      hide *;
      assert forall x :: x in groups <==> x in front || x == g;
    }
  }

  function Filled(g: Group, circuitMap: map<string, Id>, fill: Interpolation): int
    requires g.readings != []
  {
    if g.meter in circuitMap then CountPresent(fill(Hourly(g.readings))) - CountPresent(Hourly(g.readings)) else 0
  }

  lemma AddedExactly(d: Draft, g: Group, circuitMap: map<string, Id>, config: Config, fill: Interpolation)
    requires config.windowSize >= 1 && g.readings != []
    requires CountPresent(fill(Hourly(g.readings))) >= CountPresent(Hourly(g.readings))
    ensures var added := Add(d, g, circuitMap, config, fill).interpolated - d.interpolated;
            added <= Filled(g, circuitMap, fill)
            && (added == Filled(g, circuitMap, fill) <==> CountedExactly(g, circuitMap, fill))
  {
    PresentAtMostReadings(g.readings, IndexStart(g.readings), IndexLength(g.readings));
  }

  lemma RatioAbove(x: real, n: real, limit: real)
    requires n > 0.0
    ensures x / n > limit <==> x > limit * n
  {
    assert (x / n) * n == x;
    if x / n > limit {
      assert (x / n - limit) * n > 0.0;
    } else {
      assert (limit - x / n) * n >= 0.0;
    }
  }

  /** The interpolated hours exceed the configured share of the hours that carry a value. */
  predicate TooMuchInterpolated(d: Draft, limit: real) {
    d.total > 0 && d.interpolated as real > limit * d.total as real
  }

  lemma HighRatioMeans(d: Draft, limit: real)
    ensures HighRatio(d, limit) <==> TooMuchInterpolated(d, limit)
  {
    if d.total > 0 {
      RatioAbove(d.interpolated as real, d.total as real, limit);
    }
  }

  lemma {:induction false} NoRatioIssue(groups: seq<Group>, circuitMap: map<string, Id>, config: Config,
                                        fill: Interpolation)
    requires config.windowSize >= 1 && forall g | g in groups :: g.readings != []
    ensures forall i | i in DraftOf(groups, circuitMap, config, fill).issues :: i.issueType != HighInterpolationRatio
  {
    if groups != [] {
      var g := groups[|groups| - 1];
      NoRatioIssue(groups[..|groups| - 1], circuitMap, config, fill);
      if g.meter in circuitMap {
        var start := IndexStart(g.readings);
        var series := Series(start, fill(Hourly(g.readings)));
        IssueTypes(RunsOf(Missing(Hourly(g.readings))), start, circuitMap[g.meter], config.maxGapMinutes, series,
                   Guard.Outliers(series, config.windowSize, config.threshold));
      }
    }
  }
}
