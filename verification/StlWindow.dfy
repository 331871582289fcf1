/** Calendar-aware STL analysis of one circuit's window: join, split into cohorts, decompose, scatter back. */
module StlWindow {
  import opened Wrappers
  import opened Sorting
  import opened Statistics
  import opened ResidualScores

  type Id = nat

  const DAY := 86400

  datatype Reading = Reading(tenant: Id, circuit: Id, ts: int, kwh: Option<real>)
  datatype DayType = BusinessDay | Weekend | Holiday | DeclaredClosure
  datatype CalendarEntry = CalendarEntry(date: int, dayType: DayType)

  datatype Component = Component(trend: real, seasonal: real, residual: real)

  /** The decomposition library: the components of a series at a position. */
  type Fit = (seq<Reading>, nat) -> Component

  datatype Config = Config(minHistory: int, threshold: real)

  datatype Score = Score(component: Component, zscore: real, magnitude: real, anomalous: bool)
  datatype StlResult = StlResult(reading: Reading, dayType: DayType, score: Option<Score>)

  datatype Error = CalendarLookupError(date: int) | AllValuesMissing

  // ---------------------------------------------------------------- joining

  function DateOf(ts: int): int { ts / DAY }

  /** The last entry of a date wins, as in a dictionary built in list order. */
  function DayTypeOn(calendar: seq<CalendarEntry>, date: int): Option<DayType> {
    if calendar == [] then None
    else
      var last := calendar[|calendar| - 1];
      if last.date == date then Some(last.dayType) else DayTypeOn(calendar[..|calendar| - 1], date)
  }

  function DayTypeOf(calendar: seq<CalendarEntry>, r: Reading): Option<DayType> {
    DayTypeOn(calendar, DateOf(r.ts))
  }

  predicate NoLater(a: Reading, b: Reading) { a.ts <= b.ts }

  // ---------------------------------------------------------------- one cohort

  function Residuals(series: seq<Reading>, fit: Fit): (r: seq<real>)
    ensures |r| == |series| && forall i | 0 <= i < |r| :: r[i] == fit(series, i).residual
  {
    seq(|series|, i requires 0 <= i < |series| => fit(series, i).residual)
  }

  /** The timestamp index keeps the last position of a repeated timestamp. */
  function LastIndex(series: seq<Reading>, ts: int): (k: nat)
    requires exists r :: r in series && r.ts == ts
    ensures k < |series| && series[k].ts == ts
    ensures forall j | k < j < |series| :: series[j].ts != ts
  {
    var n := |series| - 1;
    assert series == series[..n] + [series[n]];
    if series[n].ts == ts then n else LastIndex(series[..n], ts)
  }

  predicate TooShort(n: nat, config: Config) { n < config.minHistory }

  predicate AllMissing(cohort: seq<Reading>) { forall r | r in cohort :: r.kwh.None? }

  function ScoreAt(cohort: seq<Reading>, k: nat, config: Config, fit: Fit): Score
    requires k < |cohort|
  {
    var z := ComputeResidualZscores(Residuals(cohort, fit));
    var c := fit(cohort, k);
    Score(c, z[k], Abs(c.residual), FlagAnomalies(z, config.threshold)[k])
  }

  /** All scores of a cohort, computed once from its residuals. */
  function ScoreSeries(cohort: seq<Reading>, config: Config, fit: Fit): (scores: seq<Score>)
    ensures |scores| == |cohort| && forall k | 0 <= k < |cohort| :: scores[k] == ScoreAt(cohort, k, config, fit)
  {
    seq(|cohort|, k requires 0 <= k < |cohort| => ScoreAt(cohort, k, config, fit))
  }

  function CohortResult(cohort: seq<Reading>, i: nat, dayType: DayType, config: Config, fit: Fit): StlResult
    requires i < |cohort|
  {
    StlResult(cohort[i], dayType,
              if TooShort(|cohort|, config) then None
              else Some(ScoreAt(cohort, LastIndex(cohort, cohort[i].ts), config, fit)))
  }

  /** _decompose_cohort: low quality without scores when too short, an error when there is nothing to fit. */
  method DecomposeCohort(cohort: seq<Reading>, dayType: DayType, config: Config, fit: Fit)
    returns (r: Result<seq<StlResult>, Error>)
    ensures r.Err? <==> !TooShort(|cohort|, config) && AllMissing(cohort)
    ensures r.Err? ==> r.error == AllValuesMissing
    ensures r.Ok? ==> |r.value| == |cohort| && forall i | 0 <= i < |cohort| ::
                        r.value[i] == CohortResult(cohort, i, dayType, config, fit)
  {
    if TooShort(|cohort|, config) {
      return Ok(seq(|cohort|, i requires 0 <= i < |cohort| => StlResult(cohort[i], dayType, None)));
    }
    if AllMissing(cohort) {
      return Err(AllValuesMissing);
    }
    var scores := ScoreSeries(cohort, config, fit);
    var results := AlignScores(cohort, dayType, scores);
    return Ok(results);
  }

  /** The loop over the readings, looking each timestamp up in the decomposition's index. */
  method AlignScores(cohort: seq<Reading>, dayType: DayType, scores: seq<Score>) returns (results: seq<StlResult>)
    requires |scores| == |cohort|
    ensures |results| == |cohort| && forall i | 0 <= i < |cohort| ::
              results[i] == StlResult(cohort[i], dayType, Some(scores[LastIndex(cohort, cohort[i].ts)]))
  {
    results := [];
    for i := 0 to |cohort|
      invariant |results| == i
      invariant forall j | 0 <= j < i ::
                  results[j] == StlResult(cohort[j], dayType, Some(scores[LastIndex(cohort, cohort[j].ts)]))
    {
      var k := LastIndex(cohort, cohort[i].ts);
      results := results + [StlResult(cohort[i], dayType, Some(scores[k]))];
    }
  }

  // ---------------------------------------------------------------- the split

  /** The positions of a day type, ascending. */
  function IndicesOf(types: seq<DayType>, d: DayType): (idx: seq<nat>)
    ensures forall j | 0 <= j < |idx| :: idx[j] < |types| && types[idx[j]] == d
  {
    if types == [] then []
    else IndicesOf(types[..|types| - 1], d) + (if types[|types| - 1] == d then [|types| - 1] else [])
  }

  /** How many earlier positions share the day type of position i. */
  function Place(types: seq<DayType>, i: nat): (j: nat)
    requires i < |types|
    ensures j < |IndicesOf(types, types[i])| && IndicesOf(types, types[i])[j] == i
  {
    if i == |types| - 1 then |IndicesOf(types[..i], types[i])|
    else Place(types[..|types| - 1], i)
  }

  lemma {:induction false} IndicesAscend(types: seq<DayType>, d: DayType)
    ensures forall i, j | 0 <= i < j < |IndicesOf(types, d)| :: IndicesOf(types, d)[i] < IndicesOf(types, d)[j]
  {
    if types != [] {
      IndicesAscend(types[..|types| - 1], d);
    }
  }

  function Pick(readings: seq<Reading>, idx: seq<nat>): (picked: seq<Reading>)
    requires forall j | 0 <= j < |idx| :: idx[j] < |readings|
    ensures |picked| == |idx| && forall j | 0 <= j < |idx| :: picked[j] == readings[idx[j]]
  {
    seq(|idx|, j requires 0 <= j < |idx| => readings[idx[j]])
  }

  function Cohort(readings: seq<Reading>, types: seq<DayType>, d: DayType): seq<Reading>
    requires |types| == |readings|
  {
    Pick(readings, IndicesOf(types, d))
  }

  /** The result a reading receives from its own cohort. */
  function ResultAt(sorted: seq<Reading>, types: seq<DayType>, i: nat, config: Config, fit: Fit): StlResult
    requires |types| == |sorted| && i < |sorted|
  {
    CohortResult(Cohort(sorted, types, types[i]), Place(types, i), types[i], config, fit)
  }

  predicate CohortFails(sorted: seq<Reading>, types: seq<DayType>, d: DayType, config: Config)
    requires |types| == |sorted|
  {
    var cohort := Cohort(sorted, types, d);
    cohort != [] && !TooShort(|cohort|, config) && AllMissing(cohort)
  }

  // ---------------------------------------------------------------- the service

  /** Step 1: the hard join; the earliest reading without a calendar entry stops the analysis. */
  method JoinCalendar(sorted: seq<Reading>, calendar: seq<CalendarEntry>)
    returns (r: Result<seq<DayType>, Error>)
    ensures r.Ok? <==> Joinable(sorted, calendar)
    ensures r.Ok? ==> |r.value| == |sorted|
    ensures r.Ok? ==> forall i | 0 <= i < |sorted| :: DayTypeOf(calendar, sorted[i]) == Some(r.value[i])
    ensures r.Err? ==> r.error == CalendarLookupError(FirstUncovered(sorted, calendar))
  {
    var types := [];
    for i := 0 to |sorted|
      invariant |types| == i
      invariant forall j | 0 <= j < i :: DayTypeOf(calendar, sorted[j]) == Some(types[j])
    {
      var d := DayTypeOf(calendar, sorted[i]);
      if d.None? {
        assert sorted[i] in sorted;
        FirstUncoveredIs(sorted, calendar, i);
        return Err(CalendarLookupError(DateOf(sorted[i].ts)));
      }
      types := types + [d.value];
    }
    return Ok(types);
  }

  lemma {:induction false} FirstUncoveredIs(sorted: seq<Reading>, calendar: seq<CalendarEntry>, i: nat)
    requires i < |sorted| && DayTypeOf(calendar, sorted[i]).None? && !Joinable(sorted, calendar)
    requires forall j | 0 <= j < i :: DayTypeOf(calendar, sorted[j]).Some?
    ensures FirstUncovered(sorted, calendar) == DateOf(sorted[i].ts)
  {
    if i > 0 {
      assert sorted[1..][i - 1] == sorted[i] && sorted[i] in sorted[1..];
      FirstUncoveredIs(sorted[1..], calendar, i - 1);
    }
  }

  /** Step 2: the index lists of each day type, in order of first appearance. */
  method GroupIndices(types: seq<DayType>) returns (order: seq<DayType>, groups: map<DayType, seq<nat>>)
    ensures forall d :: d in order <==> d in types
    ensures forall d :: d in groups <==> d in types
    ensures forall d | d in groups :: groups[d] == IndicesOf(types, d)
  {
    order, groups := [], map[];
    for i := 0 to |types|
      invariant Grouped(types[..i], order, groups)
    {
      var d := types[i];
      IndicesSnoc(types, i);
      if d !in groups {
        order := order + [d];
        groups := groups[d := []];
      }
      groups := groups[d := groups[d] + [i]];
    }
    assert types[..|types|] == types;
    forall d ensures d in groups <==> d in types {
      if d in types {
        PresentHasIndex(types, d);
      } else {
        AbsentIsEmpty(types, d);
      }
    }
  }

  /** The lists hold every index of their day type, and only day types that occur have one. */
  ghost predicate Grouped(types: seq<DayType>, order: seq<DayType>, groups: map<DayType, seq<nat>>) {
    && (forall d :: d in order <==> d in groups)
    && (forall d :: IndicesOf(types, d) == if d in groups then groups[d] else [])
    && (forall d | d in groups :: groups[d] != [])
  }

  lemma IndicesSnoc(types: seq<DayType>, i: nat)
    requires i < |types|
    ensures forall d :: IndicesOf(types[..i + 1], d) == IndicesOf(types[..i], d) + if types[i] == d then [i] else []
  {
    assert types[..i + 1][..i] == types[..i];
  }

  /** Every reading's result, as its own cohort determines it. */
  function Expected(sorted: seq<Reading>, types: seq<DayType>, config: Config, fit: Fit): (results: seq<StlResult>)
    requires |types| == |sorted|
    ensures |results| == |sorted| &&
            forall i | 0 <= i < |sorted| :: results[i] == ResultAt(sorted, types, i, config, fit)
  {
    seq(|sorted|, i requires 0 <= i < |sorted| => ResultAt(sorted, types, i, config, fit))
  }

  /** One cohort, gathered and decomposed. */
  method DecomposeGroup(sorted: seq<Reading>, indices: seq<nat>, d: DayType, config: Config, fit: Fit,
                        ghost types: seq<DayType>, ghost expected: seq<StlResult>)
    returns (r: Result<seq<StlResult>, Error>)
    requires |types| == |sorted| && d in types && indices == IndicesOf(types, d)
    requires expected == Expected(sorted, types, config, fit)
    ensures r.Err? <==> CohortFails(sorted, types, d, config)
    ensures r.Err? ==> r.error == AllValuesMissing
    ensures r.Ok? ==> |r.value| == |IndicesOf(types, d)|
    ensures r.Ok? ==> forall i | 0 <= i < |types| && types[i] == d :: r.value[Place(types, i)] == expected[i]
  {
    var cohort := Pick(sorted, indices);
    PresentHasIndex(types, d);
    r := DecomposeCohort(cohort, d, config, fit);
  }

  /** Decompose one cohort and write its results into the slots of its readings. */
  method FillGroup(slots: array<Option<StlResult>>, sorted: seq<Reading>, indices: seq<nat>, d: DayType,
                   config: Config, fit: Fit,
                   ghost types: seq<DayType>, ghost expected: seq<StlResult>)
    returns (error: Option<Error>)
    requires |types| == |sorted| == slots.Length && d in types && indices == IndicesOf(types, d)
    requires expected == Expected(sorted, types, config, fit)
    modifies slots
    ensures error.Some? <==> CohortFails(sorted, types, d, config)
    ensures error.Some? ==> error.value == AllValuesMissing
    ensures error.None? ==> forall i | 0 <= i < slots.Length ::
                              slots[i] == if types[i] == d then Some(expected[i]) else old(slots[i])
  {
    var results := DecomposeGroup(sorted, indices, d, config, fit, types, expected);
    if results.Err? {
      return Some(results.error);
    }
    Scatter(slots, indices, results.value, types, d);
    return None;
  }

  /** Step 3: decompose the cohorts one by one and write each result into its reading's slot. */
  method DecomposeAndScatter(sorted: seq<Reading>, order: seq<DayType>, groups: map<DayType, seq<nat>>,
                             config: Config, fit: Fit, ghost types: seq<DayType>)
    returns (r: Result<seq<StlResult>, Error>)
    requires |types| == |sorted|
    requires forall d :: d in order <==> d in types
    requires forall d | d in order :: d in groups && groups[d] == IndicesOf(types, d)
    ensures r.Err? <==> exists d :: CohortFails(sorted, types, d, config)
    ensures r.Err? ==> r.error == AllValuesMissing
    ensures r.Ok? ==> r.value == Expected(sorted, types, config, fit)
  {
    ghost var expected := Expected(sorted, types, config, fit);
    var n := |sorted|;
    var slots := new Option<StlResult>[n](_ => None);
    for g := 0 to |order|
      invariant forall i | 0 <= i < n && types[i] in order[..g] :: slots[i] == Some(expected[i])
      invariant forall d | d in order[..g] :: !CohortFails(sorted, types, d, config)
    {
      var d := order[g];
      var error := FillGroup(slots, sorted, groups[d], d, config, fit, types, expected);
      if error.Some? {
        return Err(error.value);
      }
      assert forall x :: x in order[..g + 1] <==> x in order[..g] || x == d;
    }
    assert order[..|order|] == order;
    AbsentNeverFails(sorted, types, config);
    var values := CollectSlots(slots, expected);
    return Ok(values);
  }

  lemma AbsentNeverFails(sorted: seq<Reading>, types: seq<DayType>, config: Config)
    requires |types| == |sorted|
    ensures forall d | d !in types :: !CohortFails(sorted, types, d, config)
  {
    forall d | d !in types ensures !CohortFails(sorted, types, d, config) {
      AbsentIsEmpty(types, d);
    }
  }

  /** Every slot is filled; the options are dropped. */
  method CollectSlots(slots: array<Option<StlResult>>, ghost expected: seq<StlResult>) returns (values: seq<StlResult>)
    requires |expected| == slots.Length && forall i | 0 <= i < slots.Length :: slots[i] == Some(expected[i])
    ensures values == expected
  {
    values := [];
    for i := 0 to slots.Length
      invariant values == expected[..i]
    {
      values := values + [slots[i].value];
    }
  }

  lemma PresentHasIndex(types: seq<DayType>, d: DayType)
    requires d in types
    ensures IndicesOf(types, d) != []
  {
    var i :| 0 <= i < |types| && types[i] == d;
    assert Place(types, i) < |IndicesOf(types, d)|;
  }

  lemma {:induction false} AbsentIsEmpty(types: seq<DayType>, d: DayType)
    requires d !in types
    ensures IndicesOf(types, d) == []
  {
    if types != [] {
      AbsentIsEmpty(types[..|types| - 1], d);
    }
  }

  /** The slots of one day type receive its cohort's results; all other slots stay as they were. */
  method Scatter(slots: array<Option<StlResult>>, indices: seq<nat>, results: seq<StlResult>,
                 ghost types: seq<DayType>, ghost d: DayType)
    requires |types| == slots.Length && indices == IndicesOf(types, d) && |results| == |indices|
    modifies slots
    ensures forall i | 0 <= i < slots.Length :: types[i] != d ==> slots[i] == old(slots[i])
    ensures forall i | 0 <= i < slots.Length :: types[i] == d ==> slots[i] == Some(results[Place(types, i)])
  {
    IndicesAscend(types, d);
    for j := 0 to |indices|
      invariant forall i | 0 <= i < slots.Length :: types[i] != d ==> slots[i] == old(slots[i])
      invariant forall k | 0 <= k < j :: slots[indices[k]] == Some(results[k])
    {
      slots[indices[j]] := Some(results[j]);
    }
    forall i | 0 <= i < slots.Length && types[i] == d ensures slots[i] == Some(results[Place(types, i)]) {
      assert indices[Place(types, i)] == i;
    }
  }

  predicate Joinable(readings: seq<Reading>, calendar: seq<CalendarEntry>) {
    forall r | r in readings :: DayTypeOf(calendar, r).Some?
  }

  function TypesOf(readings: seq<Reading>, calendar: seq<CalendarEntry>): (types: seq<DayType>)
    requires Joinable(readings, calendar)
    ensures |types| == |readings|
    ensures forall i | 0 <= i < |readings| :: DayTypeOf(calendar, readings[i]) == Some(types[i])
  {
    seq(|readings|, i requires 0 <= i < |readings| => DayTypeOf(calendar, readings[i]).value)
  }

  /** The date of the first reading the calendar does not cover. */
  function FirstUncovered(sorted: seq<Reading>, calendar: seq<CalendarEntry>): int
    requires !Joinable(sorted, calendar)
  {
    if DayTypeOf(calendar, sorted[0]).None? then DateOf(sorted[0].ts)
    else
      assert sorted == [sorted[0]] + sorted[1..];
      FirstUncovered(sorted[1..], calendar)
  }

  /** The whole analysis as a function of its input. */
  ghost function Outcome(readings: seq<Reading>, calendar: seq<CalendarEntry>, config: Config, fit: Fit)
    : Result<seq<StlResult>, Error>
  {
    var sorted := Sort(readings, NoLater);
    if !Joinable(sorted, calendar) then Err(CalendarLookupError(FirstUncovered(sorted, calendar)))
    else
      var types := TypesOf(sorted, calendar);
      if exists d :: CohortFails(sorted, types, d, config) then Err(AllValuesMissing)
      else Ok(Expected(sorted, types, config, fit))
  }

  method AnalyseCircuitWindow(readings: seq<Reading>, calendar: seq<CalendarEntry>, config: Config, fit: Fit)
    returns (r: Result<seq<StlResult>, Error>)
    ensures r == Outcome(readings, calendar, config, fit)
  {
    var sorted := Sort(readings, NoLater);
    if readings == [] {
      NothingToAnalyse(calendar, config, fit);
      return Ok([]);
    }
    var joined := JoinCalendar(sorted, calendar);
    if joined.Err? {
      return Err(joined.error);
    }
    assert joined.value == TypesOf(sorted, calendar);
    var order, groups := GroupIndices(joined.value);
    r := DecomposeAndScatter(sorted, order, groups, config, fit, joined.value);
  }

  lemma NothingToAnalyse(calendar: seq<CalendarEntry>, config: Config, fit: Fit)
    ensures Outcome([], calendar, config, fit) == Ok([])
  {
    var none: seq<Reading> := [];
    assert Sort(none, NoLater) == [] && TypesOf(none, calendar) == [];
  }

  // ---------------------------------------------------------------- what the analysis guarantees

  ghost predicate DistinctTimes(readings: seq<Reading>) {
    forall i, j | 0 <= i < j < |readings| :: readings[i].ts != readings[j].ts
  }

  lemma DistinctTimesDistinguish(readings: seq<Reading>)
    requires DistinctTimes(readings)
    ensures Distinguishes(NoLater, readings)
  {
  }

  /** The order in which readings arrive does not matter. */
  lemma PermutationInvariant(a: seq<Reading>, b: seq<Reading>, calendar: seq<CalendarEntry>, config: Config, fit: Fit)
    requires DistinctTimes(a) && multiset(a) == multiset(b)
    ensures Outcome(a, calendar, config, fit) == Outcome(b, calendar, config, fit)
  {
    DistinctTimesDistinguish(a);
    SortPermutation(a, b, NoLater);
  }

  function ReadingsOf(results: seq<StlResult>): (readings: seq<Reading>)
    ensures |readings| == |results| && forall i | 0 <= i < |results| :: readings[i] == results[i].reading
  {
    seq(|results|, i requires 0 <= i < |results| => results[i].reading)
  }

  /** One result per reading, in ascending time, each with its calendar day type. */
  lemma OneResultPerReading(readings: seq<Reading>, calendar: seq<CalendarEntry>, config: Config, fit: Fit)
    requires Outcome(readings, calendar, config, fit).Ok?
    ensures var results := Outcome(readings, calendar, config, fit).value;
            && multiset(ReadingsOf(results)) == multiset(readings)
            && (forall i, j | 0 <= i < j < |results| :: results[i].reading.ts <= results[j].reading.ts)
            && (forall i | 0 <= i < |results| :: Some(results[i].dayType) == DayTypeOf(calendar, results[i].reading))
  {
    var sorted := Sort(readings, NoLater);
    var results := Outcome(readings, calendar, config, fit).value;
    SortProperties(readings, NoLater);
    assert ReadingsOf(results) == sorted;
    forall i, j | 0 <= i < j < |results| ensures results[i].reading.ts <= results[j].reading.ts {
      assert NoLater(sorted[i], sorted[j]);
    }
  }

  /** A result lacks scores exactly when the input holds too few readings of its day type. */
  lemma LowQualityExactly(readings: seq<Reading>, calendar: seq<CalendarEntry>, config: Config, fit: Fit, i: nat)
    requires Outcome(readings, calendar, config, fit).Ok?
    requires i < |Outcome(readings, calendar, config, fit).value|
    ensures var result := Outcome(readings, calendar, config, fit).value[i];
            result.score.None? <==> TooShort(|OfDay(readings, calendar, result.dayType)|, config)
  {
    var sorted := Sort(readings, NoLater);
    var types := TypesOf(sorted, calendar);
    CohortIsOfDay(sorted, types, calendar, types[i]);
    FilterSort(readings, calendar, types[i]);
    SortProperties(OfDay(readings, calendar, types[i]), NoLater);
  }

  // ---------------------------------------------------------------- cohorts do not see each other

  /** The readings of one day type, in input order. */
  function OfDay(readings: seq<Reading>, calendar: seq<CalendarEntry>, d: DayType): seq<Reading> {
    if readings == [] then []
    else (if DayTypeOf(calendar, readings[0]) == Some(d) then [readings[0]] else []) + OfDay(readings[1..], calendar, d)
  }

  lemma {:induction false} OfDayAppend(a: seq<Reading>, b: seq<Reading>, calendar: seq<CalendarEntry>, d: DayType)
    ensures OfDay(a + b, calendar, d) == OfDay(a, calendar, d) + OfDay(b, calendar, d)
  {
    if a == [] {
      assert a + b == b;
    } else {
      var head := if DayTypeOf(calendar, a[0]) == Some(d) then [a[0]] else [];
      OfDayAppend(a[1..], b, calendar, d);
      assert (a + b)[1..] == a[1..] + b;
      assert OfDay(a + b, calendar, d) == head + OfDay(a[1..] + b, calendar, d);
      assert OfDay(a, calendar, d) == head + OfDay(a[1..], calendar, d);
    }
  }

  lemma {:induction false} OfDayMembers(readings: seq<Reading>, calendar: seq<CalendarEntry>, d: DayType)
    ensures forall r :: r in OfDay(readings, calendar, d) <==> r in readings && DayTypeOf(calendar, r) == Some(d)
  {
    if readings != [] {
      OfDayMembers(readings[1..], calendar, d);
      assert readings == [readings[0]] + readings[1..];
    }
  }

  lemma {:induction false} CohortIsOfDay(readings: seq<Reading>, types: seq<DayType>, calendar: seq<CalendarEntry>,
                                         d: DayType)
    requires |types| == |readings|
    requires forall i | 0 <= i < |readings| :: DayTypeOf(calendar, readings[i]) == Some(types[i])
    ensures Cohort(readings, types, d) == OfDay(readings, calendar, d)
  {
    if readings != [] {
      var n := |readings| - 1;
      CohortIsOfDay(readings[..n], types[..n], calendar, d);
      OfDayAppend(readings[..n], [readings[n]], calendar, d);
      assert readings == readings[..n] + [readings[n]];
      assert Cohort(readings, types, d) ==
             Cohort(readings[..n], types[..n], d) + (if types[n] == d then [readings[n]] else []);
    }
  }

  lemma KeptFollows(x: Reading, s: seq<Reading>, calendar: seq<CalendarEntry>, d: DayType)
    requires Ordered(s, NoLater) && (s == [] || NoLater(x, s[0]))
    ensures var kept := OfDay(s, calendar, d); kept == [] || NoLater(x, kept[0])
  {
    OfDayMembers(s, calendar, d);
    var kept := OfDay(s, calendar, d);
    if kept != [] {
      assert kept[0] in kept && kept[0] in s;
      var i :| 0 <= i < |s| && s[i] == kept[0];
      assert i > 0 ==> NoLater(s[0], s[i]);
    }
  }

  lemma {:induction false} FilterInsert(x: Reading, s: seq<Reading>, calendar: seq<CalendarEntry>, d: DayType)
    requires Ordered(s, NoLater)
    ensures OfDay(Insert(x, s, NoLater), calendar, d) ==
            if DayTypeOf(calendar, x) == Some(d)
              then Insert(x, OfDay(s, calendar, d), NoLater) else OfDay(s, calendar, d)
  {
    if s == [] || NoLater(x, s[0]) {
      assert ([x] + s)[1..] == s;
      KeptFollows(x, s, calendar, d);
    } else {
      var rest, kept := Insert(x, s[1..], NoLater), OfDay(s[1..], calendar, d);
      assert ([s[0]] + rest)[1..] == rest;
      FilterInsert(x, s[1..], calendar, d);
      if DayTypeOf(calendar, s[0]) == Some(d) {
        assert OfDay(s, calendar, d) == [s[0]] + kept && ([s[0]] + kept)[1..] == kept;
        assert Insert(x, [s[0]] + kept, NoLater) == [s[0]] + Insert(x, kept, NoLater);
      } else {
        assert OfDay(s, calendar, d) == kept;
      }
    }
  }

  /** Selecting a day type and sorting commute. */
  lemma {:induction false} FilterSort(readings: seq<Reading>, calendar: seq<CalendarEntry>, d: DayType)
    ensures OfDay(Sort(readings, NoLater), calendar, d) == Sort(OfDay(readings, calendar, d), NoLater)
  {
    if readings != [] {
      var x, tail := readings[0], readings[1..];
      FilterSort(tail, calendar, d);
      SortProperties(tail, NoLater);
      FilterInsert(x, Sort(tail, NoLater), calendar, d);
      var rest := OfDay(tail, calendar, d);
      if DayTypeOf(calendar, x) == Some(d) {
        assert OfDay(readings, calendar, d) == [x] + rest && ([x] + rest)[1..] == rest;
      } else {
        assert OfDay(readings, calendar, d) == rest;
      }
    }
  }

  function DayTypesOf(results: seq<StlResult>): (types: seq<DayType>)
    ensures |types| == |results| && forall i | 0 <= i < |results| :: types[i] == results[i].dayType
  {
    seq(|results|, i requires 0 <= i < |results| => results[i].dayType)
  }

  /** The results of one day type, in order. */
  function ResultsOfDay(results: seq<StlResult>, d: DayType): seq<StlResult> {
    var idx := IndicesOf(DayTypesOf(results), d);
    seq(|idx|, j requires 0 <= j < |idx| => results[idx[j]])
  }

  lemma PlaceOfIndex(types: seq<DayType>, d: DayType, j: nat)
    requires j < |IndicesOf(types, d)|
    ensures Place(types, IndicesOf(types, d)[j]) == j
  {
    IndicesAscend(types, d);
    var k := Place(types, IndicesOf(types, d)[j]);
    assert IndicesOf(types, d)[k] == IndicesOf(types, d)[j];
  }

  lemma ResultsOfDayAre(sorted: seq<Reading>, types: seq<DayType>, d: DayType, config: Config, fit: Fit)
    requires |types| == |sorted|
    ensures var cohort, got := Cohort(sorted, types, d), ResultsOfDay(Expected(sorted, types, config, fit), d);
            |got| == |cohort| && forall j | 0 <= j < |cohort| :: got[j] == CohortResult(cohort, j, d, config, fit)
  {
    var results := Expected(sorted, types, config, fit);
    assert DayTypesOf(results) == types;
    forall j | 0 <= j < |IndicesOf(types, d)| ensures Place(types, IndicesOf(types, d)[j]) == j {
      PlaceOfIndex(types, d, j);
    }
  }

  /** One cohort's results do not depend on any other cohort's readings. */
  lemma CohortIndependence(a: seq<Reading>, b: seq<Reading>, calendar: seq<CalendarEntry>, d: DayType, config: Config,
                           fit: Fit)
    requires DistinctTimes(OfDay(a, calendar, d))
    requires multiset(OfDay(a, calendar, d)) == multiset(OfDay(b, calendar, d))
    requires Outcome(a, calendar, config, fit).Ok? && Outcome(b, calendar, config, fit).Ok?
    ensures ResultsOfDay(Outcome(a, calendar, config, fit).value, d) ==
            ResultsOfDay(Outcome(b, calendar, config, fit).value, d)
  {
    var sa, sb := Sort(a, NoLater), Sort(b, NoLater);
    var ta, tb := TypesOf(sa, calendar), TypesOf(sb, calendar);
    CohortIsOfDay(sa, ta, calendar, d);
    CohortIsOfDay(sb, tb, calendar, d);
    FilterSort(a, calendar, d);
    FilterSort(b, calendar, d);
    DistinctTimesDistinguish(OfDay(a, calendar, d));
    SortPermutation(OfDay(a, calendar, d), OfDay(b, calendar, d), NoLater);
    ResultsOfDayAre(sa, ta, d, config, fit);
    ResultsOfDayAre(sb, tb, d, config, fit);
  }

  // ---------------------------------------------------------------- flagged share of a cohort

  function AnomalyMask(results: seq<StlResult>): (mask: seq<bool>)
    ensures |mask| == |results|
    ensures forall i | 0 <= i < |results| :: mask[i] <==> results[i].score.Some? && results[i].score.value.anomalous
  {
    seq(|results|, i requires 0 <= i < |results| => results[i].score.Some? && results[i].score.value.anomalous)
  }

  lemma LastIndexOfDistinct(series: seq<Reading>, i: nat)
    requires i < |series| && DistinctTimes(series)
    ensures LastIndex(series, series[i].ts) == i
  {
  }

  lemma {:induction false} NoneTrue(mask: seq<bool>)
    requires forall i | 0 <= i < |mask| :: !mask[i]
    ensures CountTrue(mask) == 0
  {
    if mask != [] {
      NoneTrue(mask[1..]);
    }
  }

  /** With distinct timestamps at most half of a day type's results are anomalous. */
  lemma CohortHalfFlagged(cohort: seq<Reading>, results: seq<StlResult>, d: DayType, config: Config, fit: Fit)
    requires DistinctTimes(cohort) && CONSISTENCY * config.threshold >= 1.0
    requires |results| == |cohort| &&
             forall i | 0 <= i < |cohort| :: results[i] == CohortResult(cohort, i, d, config, fit)
    ensures 2 * CountTrue(AnomalyMask(results)) <= |results|
  {
    if TooShort(|cohort|, config) {
      NoneTrue(AnomalyMask(results));
    } else {
      var flags := FlagAnomalies(ComputeResidualZscores(Residuals(cohort, fit)), config.threshold);
      forall i | 0 <= i < |cohort| ensures AnomalyMask(results)[i] == flags[i] {
        LastIndexOfDistinct(cohort, i);
      }
      assert AnomalyMask(results) == flags;
      AtMostHalfFlagged(Residuals(cohort, fit), config.threshold);
    }
  }
}
