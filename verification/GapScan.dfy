/** Hourly resampling of one circuit: the gap scan, its quarantine decisions, and what happens to the energy. */
module GapScan {
  import opened Wrappers
  import opened IngestionModels
  import opened Runs

  datatype RawReading = RawReading(ts: int, kwh: Option<real>)

  function FloorHour(ts: int): (h: int)
    ensures h <= ts < h + HOUR && h % HOUR == 0
  {
    ts - ts % HOUR
  }

  function CeilHour(ts: int): (h: int)
    ensures h - HOUR < ts <= h && h % HOUR == 0
  {
    if ts % HOUR == 0 then ts else FloorHour(ts) + HOUR
  }

  function Earliest(readings: seq<RawReading>): (ts: int)
    requires readings != []
    ensures forall r | r in readings :: ts <= r.ts
    ensures exists r :: r in readings && r.ts == ts
  {
    if |readings| == 1 then readings[0].ts
    else
      var rest := Earliest(readings[1..]);
      assert readings == [readings[0]] + readings[1..];
      if readings[0].ts <= rest then readings[0].ts else rest
  }

  function Latest(readings: seq<RawReading>): (ts: int)
    requires readings != []
    ensures forall r | r in readings :: r.ts <= ts
    ensures exists r :: r in readings && r.ts == ts
  {
    if |readings| == 1 then readings[0].ts
    else
      var rest := Latest(readings[1..]);
      assert readings == [readings[0]] + readings[1..];
      if readings[0].ts >= rest then readings[0].ts else rest
  }

  /** The hourly index is [floor(min), ceil(max)) with the right end left out. */
  function IndexStart(readings: seq<RawReading>): int
    requires readings != []
  {
    FloorHour(Earliest(readings))
  }

  function IndexEnd(readings: seq<RawReading>): int
    requires readings != []
  {
    CeilHour(Latest(readings))
  }

  function IndexLength(readings: seq<RawReading>): (n: nat)
    requires readings != []
    ensures IndexStart(readings) + HOUR * n == IndexEnd(readings)
  {
    assert Earliest(readings) <= Latest(readings);
    (IndexEnd(readings) - IndexStart(readings)) / HOUR
  }

  // ---------------------------------------------------------------- the hourly sums

  /** Sum of the present values in [h, h + 1 hour), missing when there is none. */
  function HourSum(readings: seq<RawReading>, h: int): Option<real> {
    if readings == [] then None
    else
      var rest := HourSum(readings[1..], h);
      var r := readings[0];
      if h <= r.ts < h + HOUR && r.kwh.Some? then
        Some(r.kwh.value + (if rest.Some? then rest.value else 0.0))
      else rest
  }

  function Resampled(readings: seq<RawReading>, start: int, n: nat): (hourly: seq<Option<real>>)
    ensures |hourly| == n
    ensures forall k | 0 <= k < n :: hourly[k] == HourSum(readings, start + HOUR * k)
  {
    if n == 0 then [] else Resampled(readings, start, n - 1) + [HourSum(readings, start + HOUR * (n - 1))]
  }

  function Missing(hourly: seq<Option<real>>): (mask: seq<bool>)
    ensures |mask| == |hourly| && forall k | 0 <= k < |hourly| :: mask[k] == hourly[k].None?
  {
    seq(|hourly|, k requires 0 <= k < |hourly| => hourly[k].None?)
  }

  // ---------------------------------------------------------------- the scan

  /** The in-gap flag and gap start of the source, walked along the hourly index. */
  method ScanGaps(missing: seq<bool>) returns (gaps: seq<Run>)
    ensures gaps == RunsOf(missing)
  {
    gaps := [];
    var inGap, gapStart := false, 0;
    for k := 0 to |missing|
      invariant ScanState(missing[..k], gaps, if inGap then Some(gapStart) else None)
    {
      PrefixStep(missing, k, gaps, if inGap then Some(gapStart) else None);
      if missing[k] {
        if !inGap {
          inGap, gapStart := true, k;
        }
      } else if inGap {
        gaps := gaps + [Run(gapStart, k)];
        inGap := false;
      }
    }
    ScanDone(missing, gaps, if inGap then Some(gapStart) else None);
    if inGap {
      gaps := gaps + [Run(gapStart, |missing|)];
    }
  }

  predicate TooLong(gap: Run, maxGapMinutes: int) {
    60 * (gap.end as int - gap.start as int) > maxGapMinutes
  }

  function GapIssue(gap: Run, start: int, circuit: Id): QualityIssue {
    QualityIssue(GapBeyondBound, Quarantined, Some(circuit),
                 Some(start + HOUR * gap.start), Some(start + HOUR * gap.end))
  }

  /** One issue per gap beyond the interpolation limit, in time order. */
  function GapIssues(gaps: seq<Run>, start: int, circuit: Id, maxGapMinutes: int): seq<QualityIssue> {
    if gaps == [] then []
    else
      var n := |gaps| - 1;
      GapIssues(gaps[..n], start, circuit, maxGapMinutes)
      + (if TooLong(gaps[n], maxGapMinutes) then [GapIssue(gaps[n], start, circuit)] else [])
  }

  /** The hours at positions [lo, hi) of the index. */
  function Hours(start: int, lo: nat, hi: nat): set<int>
    decreases hi
  {
    if hi <= lo then {} else Hours(start, lo, hi - 1) + {start + HOUR * (hi - 1)}
  }

  /** The hours of the gaps beyond the limit. */
  function QuarantinedHours(gaps: seq<Run>, start: int, maxGapMinutes: int): set<int> {
    if gaps == [] then {}
    else
      var n := |gaps| - 1;
      QuarantinedHours(gaps[..n], start, maxGapMinutes)
      + (if TooLong(gaps[n], maxGapMinutes) then Hours(start, gaps[n].start, gaps[n].end) else {})
  }

  function QuarantinedAt(hours: set<int>): map<int, Status> {
    map h | h in hours :: Quarantined
  }

  method ClassifyGaps(gaps: seq<Run>, start: int, circuit: Id, maxGapMinutes: int)
    returns (issues: seq<QualityIssue>, statuses: map<int, Status>)
    ensures issues == GapIssues(gaps, start, circuit, maxGapMinutes)
    ensures statuses == QuarantinedAt(QuarantinedHours(gaps, start, maxGapMinutes))
  {
    issues, statuses := [], map[];
    for g := 0 to |gaps|
      invariant issues == GapIssues(gaps[..g], start, circuit, maxGapMinutes)
      invariant statuses == QuarantinedAt(QuarantinedHours(gaps[..g], start, maxGapMinutes))
    {
      var gap := gaps[g];
      assert gaps[..g + 1][..g] == gaps[..g];
      if TooLong(gap, maxGapMinutes) {
        statuses := QuarantineRun(gap, start, statuses, QuarantinedHours(gaps[..g], start, maxGapMinutes));
        issues := issues + [GapIssue(gap, start, circuit)];
      }
    }
    assert gaps[..|gaps|] == gaps;
  }

  /** The inner loop over the hours of one gap. */
  method QuarantineRun(gap: Run, start: int, before: map<int, Status>, ghost hours: set<int>)
    returns (statuses: map<int, Status>)
    requires before == QuarantinedAt(hours)
    ensures statuses == QuarantinedAt(hours + Hours(start, gap.start, gap.end))
  {
    statuses := before;
    var k := gap.start;
    while k < gap.end
      invariant gap.start <= k
      invariant k <= gap.end || k == gap.start
      invariant statuses == QuarantinedAt(hours + Hours(start, gap.start, k))
    {
      var h := start + HOUR * k;
      statuses := statuses[h := WorseStatus(StatusAt(statuses, h), Quarantined)];
      k := k + 1;
    }
    assert gap.end < gap.start ==> Hours(start, gap.start, gap.end) == {};
  }

  /** Resampling, gap scan and classification of one circuit's readings. */
  method ResampleCircuit(readings: seq<RawReading>, circuit: Id, maxGapMinutes: int)
    returns (hourly: seq<Option<real>>, issues: seq<QualityIssue>, statuses: map<int, Status>)
    requires readings != []
    ensures hourly == Resampled(readings, IndexStart(readings), IndexLength(readings))
    ensures var gaps := RunsOf(Missing(hourly));
            issues == GapIssues(gaps, IndexStart(readings), circuit, maxGapMinutes) &&
            statuses == QuarantinedAt(QuarantinedHours(gaps, IndexStart(readings), maxGapMinutes))
  {
    hourly := Resampled(readings, IndexStart(readings), IndexLength(readings));
    var gaps := ScanGaps(Missing(hourly));
    issues, statuses := ClassifyGaps(gaps, IndexStart(readings), circuit, maxGapMinutes);
  }

  // ---------------------------------------------------------------- what the classification means

  lemma {:induction false} HoursAre(start: int, lo: nat, hi: nat, k: nat)
    ensures start + HOUR * k in Hours(start, lo, hi) <==> lo <= k < hi
    decreases hi
  {
    if lo < hi {
      HoursAre(start, lo, hi - 1, k);
    }
  }

  lemma {:induction false} InLongGap(gaps: seq<Run>, start: int, maxGapMinutes: int, k: nat)
    ensures start + HOUR * k in QuarantinedHours(gaps, start, maxGapMinutes)
            <==> exists i :: 0 <= i < |gaps| && Covers(gaps[i], k) && TooLong(gaps[i], maxGapMinutes)
  {
    if gaps != [] {
      var n := |gaps| - 1;
      InLongGap(gaps[..n], start, maxGapMinutes, k);
      HoursAre(start, gaps[n].start, gaps[n].end, k);
      assert forall i | 0 <= i < n :: gaps[..n][i] == gaps[i];
      if i :| 0 <= i < n && Covers(gaps[..n][i], k) && TooLong(gaps[..n][i], maxGapMinutes) {
        assert Covers(gaps[i], k) && TooLong(gaps[i], maxGapMinutes);
      }
    }
  }

  /** An hour is quarantined exactly when it lies in a maximal run of missing hours longer than the limit. */
  lemma QuarantinedIff(missing: seq<bool>, start: int, maxGapMinutes: int, k: nat)
    ensures start + HOUR * k in QuarantinedHours(RunsOf(missing), start, maxGapMinutes)
            <==> exists g :: IsMaximal(missing, g) && Covers(g, k) && TooLong(g, maxGapMinutes)
  {
    var gaps := RunsOf(missing);
    InLongGap(gaps, start, maxGapMinutes, k);
    if i :| 0 <= i < |gaps| && Covers(gaps[i], k) && TooLong(gaps[i], maxGapMinutes) {
      RunsAreMaximal(missing, i);
    }
    if g :| IsMaximal(missing, g) && Covers(g, k) && TooLong(g, maxGapMinutes) {
      RunsAreExactlyTheMaximal(missing, g);
    }
  }

  /** Every over-long maximal gap has its issue, no other issue exists, and no gap is reported twice. */
  lemma {:induction false} GapIssuesAre(gaps: seq<Run>, start: int, circuit: Id, maxGapMinutes: int, g: Run)
    ensures GapIssue(g, start, circuit) in GapIssues(gaps, start, circuit, maxGapMinutes)
            <==> g in gaps && TooLong(g, maxGapMinutes)
    ensures |GapIssues(gaps, start, circuit, maxGapMinutes)| == CountLong(gaps, maxGapMinutes)
  {
    if gaps != [] {
      var n := |gaps| - 1;
      GapIssuesAre(gaps[..n], start, circuit, maxGapMinutes, g);
      assert gaps == gaps[..n] + [gaps[n]];
    }
  }

  function CountLong(gaps: seq<Run>, maxGapMinutes: int): nat {
    if gaps == [] then 0
    else CountLong(gaps[..|gaps| - 1], maxGapMinutes) + (if TooLong(gaps[|gaps| - 1], maxGapMinutes) then 1 else 0)
  }

  lemma {:induction false} HoursCount(start: int, lo: nat, hi: nat)
    requires lo <= hi
    ensures |Hours(start, lo, hi)| == hi - lo
    ensures forall h | h in Hours(start, lo, hi) :: start + HOUR * lo <= h < start + HOUR * hi
    decreases hi
  {
    if lo < hi {
      HoursCount(start, lo, hi - 1);
    }
  }

  /** A gap is too long exactly when its missing hours, sixty minutes each, exceed the limit. */
  lemma TooLongMeans(gap: Run, start: int, maxGapMinutes: int)
    requires gap.start <= gap.end
    ensures TooLong(gap, maxGapMinutes) <==> maxGapMinutes < |Hours(start, gap.start, gap.end)| * 60
  {
    HoursCount(start, gap.start, gap.end);
  }

  /** A gap's issue starts at its first missing hour and ends one hour after its last. */
  lemma GapIssueMeans(gap: Run, start: int, circuit: Id)
    requires gap.start < gap.end
    ensures var i := GapIssue(gap, start, circuit);
            && i.circuit == Some(circuit) && i.severity == Quarantined && i.tsStart.Some? && i.tsEnd.Some?
            && i.tsStart.value in Hours(start, gap.start, gap.end)
            && i.tsEnd.value - 3600 in Hours(start, gap.start, gap.end)
            && forall h | h in Hours(start, gap.start, gap.end) :: i.tsStart.value <= h <= i.tsEnd.value - 3600
  {
    HoursAre(start, gap.start, gap.end, gap.start);
    HoursAre(start, gap.start, gap.end, gap.end - 1);
    HoursUpTo(start, gap.start, gap.end);
  }

  lemma {:induction false} HoursUpTo(start: int, lo: nat, hi: nat)
    ensures forall h | h in Hours(start, lo, hi) :: start + HOUR * lo <= h <= start + HOUR * (hi - 1)
    decreases hi
  {
    if lo < hi {
      HoursUpTo(start, lo, hi - 1);
    }
  }

  // ---------------------------------------------------------------- energy inside the index

  function KwhOf(r: RawReading): real {
    if r.kwh.Some? then r.kwh.value else 0.0
  }

  function TotalKwh(readings: seq<RawReading>): real {
    if readings == [] then 0.0 else KwhOf(readings[0]) + TotalKwh(readings[1..])
  }

  /** What the readings at one instant add up to. */
  function KwhAt(readings: seq<RawReading>, ts: int): real {
    if readings == [] then 0.0
    else (if readings[0].ts == ts then KwhOf(readings[0]) else 0.0) + KwhAt(readings[1..], ts)
  }

  function TotalHourly(hourly: seq<Option<real>>): real {
    if hourly == [] then 0.0
    else TotalHourly(hourly[..|hourly| - 1])
         + (if hourly[|hourly| - 1].Some? then hourly[|hourly| - 1].value else 0.0)
  }

  lemma {:induction false} OneMoreReading(readings: seq<RawReading>, start: int, n: nat)
    requires readings != []
    ensures TotalHourly(Resampled(readings, start, n)) ==
            TotalHourly(Resampled(readings[1..], start, n))
            + (if start <= readings[0].ts < start + HOUR * n then KwhOf(readings[0]) else 0.0)
  {
    if n > 0 {
      OneMoreReading(readings, start, n - 1);
      var all, rest := Resampled(readings, start, n), Resampled(readings[1..], start, n);
      assert all[..n - 1] == Resampled(readings, start, n - 1);
      assert rest[..n - 1] == Resampled(readings[1..], start, n - 1);
    }
  }

  lemma {:induction false} NothingResampled(start: int, n: nat)
    ensures TotalHourly(Resampled([], start, n)) == 0.0
  {
    if n > 0 {
      NothingResampled(start, n - 1);
      assert Resampled([], start, n)[..n - 1] == Resampled([], start, n - 1);
    }
  }

  lemma {:induction false} EnergyInsideIndex(readings: seq<RawReading>, start: int, n: nat)
    requires forall r | r in readings :: start <= r.ts <= start + HOUR * n
    ensures TotalHourly(Resampled(readings, start, n)) + KwhAt(readings, start + HOUR * n) == TotalKwh(readings)
  {
    if readings == [] {
      NothingResampled(start, n);
    } else {
      assert readings[0] in readings;
      EnergyInsideIndex(readings[1..], start, n);
      OneMoreReading(readings, start, n);
    }
  }

  lemma InsideIndex(readings: seq<RawReading>)
    requires readings != []
    ensures forall r | r in readings :: IndexStart(readings) <= r.ts <= IndexEnd(readings)
  {
  }

  /** Resampling keeps all energy except that of readings exactly on the closing hour, which the index leaves out. */
  lemma EnergyConserved(readings: seq<RawReading>, start: int, n: nat, hourly: seq<Option<real>>)
    requires readings != [] && start == IndexStart(readings) && n == IndexLength(readings)
    requires hourly == Resampled(readings, start, n)
    ensures TotalHourly(hourly) + KwhAt(readings, IndexEnd(readings)) == TotalKwh(readings)
    ensures TotalHourly(hourly) == TotalKwh(readings) <==> KwhAt(readings, IndexEnd(readings)) == 0.0
  {
    InsideIndex(readings);
    EnergyInsideIndex(readings, start, n);
  }

  /** A single reading of 5 kWh taken on the hour disappears: the index is empty. */
  lemma OnTheHourIsLost()
    ensures var readings := [RawReading(HOUR, Some(5.0))];
            IndexLength(readings) == 0 &&
            TotalHourly(Resampled(readings, IndexStart(readings), IndexLength(readings))) == 0.0 &&
            TotalKwh(readings) == 5.0
  {
  }
}
