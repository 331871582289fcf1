/** What an analysed window says: dates, day types, errors, and the scores of every result. */
module StlMeaning {
  import opened Wrappers
  import opened Sorting
  import opened Statistics
  import opened ResidualScores
  import opened ScoreSymmetries
  import opened StlWindow

  // ---------------------------------------------------------------- the calendar join

  /** The date of an instant is the day of 86400 seconds that contains it. */
  lemma DateContains(ts: int)
    ensures 86400 * DateOf(ts) <= ts < 86400 * (DateOf(ts) + 1)
  {
  }

  /** This is the last entry of its date in the calendar. */
  predicate LastEntry(calendar: seq<CalendarEntry>, i: nat, date: int) {
    i < |calendar| && calendar[i].date == date && forall j | i < j < |calendar| :: calendar[j].date != date
  }

  /** A date has the day type of its last entry, and none exactly when no entry names it. */
  lemma {:induction false} DayTypeOnMeans(calendar: seq<CalendarEntry>, date: int)
    ensures DayTypeOn(calendar, date) == None <==> forall e | e in calendar :: e.date != date
    ensures forall i: nat | LastEntry(calendar, i, date) :: DayTypeOn(calendar, date) == Some(calendar[i].dayType)
  {
    if calendar != [] {
      var n := |calendar| - 1;
      var front := calendar[..n];
      assert calendar == front + [calendar[n]];
      DayTypeOnMeans(front, date);
      forall i: nat | LastEntry(calendar, i, date) ensures DayTypeOn(calendar, date) == Some(calendar[i].dayType) {
        if i < n {
          assert front[i] == calendar[i] && LastEntry(front, i, date);
        }
      }
    }
  }

  // ---------------------------------------------------------------- errors

  /** A day type with enough readings for a fit, none of which has a value. */
  ghost predicate NothingToFit(readings: seq<Reading>, calendar: seq<CalendarEntry>, config: Config, d: DayType) {
    var cohort := OfDay(readings, calendar, d);
    cohort != [] && |cohort| >= config.minHistory && forall r | r in cohort :: r.kwh == None
  }

  /**
   The analysis fails on the calendar exactly when some reading's date has no entry, and on its values exactly when
   every date has one but some day type of sufficient history holds no value.
   */
  lemma ErrorsExactly(readings: seq<Reading>, calendar: seq<CalendarEntry>, config: Config, fit: Fit)
    ensures var r := Outcome(readings, calendar, config, fit);
            var covered := forall x | x in readings :: DayTypeOn(calendar, DateOf(x.ts)).Some?;
            && (!covered <==> r.Err? && r.error.CalendarLookupError?)
            && (covered && (exists d :: NothingToFit(readings, calendar, config, d)) <==> r == Err(AllValuesMissing))
  {
    var sorted := Sort(readings, NoLater);
    SortMembers(readings, NoLater);
    assert Joinable(sorted, calendar) <==> forall x | x in readings :: DayTypeOn(calendar, DateOf(x.ts)).Some? by {
      assert forall x :: x in sorted <==> x in readings;
    }
    if Joinable(sorted, calendar) {
      var types := TypesOf(sorted, calendar);
      forall d ensures CohortFails(sorted, types, d, config) <==> NothingToFit(readings, calendar, config, d) {
        CohortIsSorted(readings, calendar, d);
        SortMembers(OfDay(readings, calendar, d), NoLater);
        SortProperties(OfDay(readings, calendar, d), NoLater);
      }
    }
  }

  /** The date a calendar error names is that of the earliest reading no entry covers. */
  lemma {:induction false} FirstUncoveredIsEarliest(sorted: seq<Reading>, calendar: seq<CalendarEntry>) returns (i: nat)
    requires !Joinable(sorted, calendar) && Ordered(sorted, NoLater)
    ensures i < |sorted| && DayTypeOn(calendar, DateOf(sorted[i].ts)).None?
    ensures FirstUncovered(sorted, calendar) == DateOf(sorted[i].ts)
    ensures forall x | x in sorted && DayTypeOn(calendar, DateOf(x.ts)).None? :: sorted[i].ts <= x.ts
  {
    var tail := sorted[1..];
    assert sorted == [sorted[0]] + tail;
    if DayTypeOf(calendar, sorted[0]).None? {
      i := 0;
      forall x | x in sorted ensures sorted[0].ts <= x.ts {
        var j :| 0 <= j < |sorted| && sorted[j] == x;
        assert j > 0 ==> NoLater(sorted[0], sorted[j]);
      }
    } else {
      var j := FirstUncoveredIsEarliest(tail, calendar);
      i := j + 1;
    }
  }

  /** The cohort a window decomposes for a day type: the readings of that type in ascending time. */
  function SortedCohort(readings: seq<Reading>, calendar: seq<CalendarEntry>, d: DayType): seq<Reading> {
    Sort(OfDay(readings, calendar, d), NoLater)
  }

  lemma CohortIsSorted(readings: seq<Reading>, calendar: seq<CalendarEntry>, d: DayType)
    requires Joinable(Sort(readings, NoLater), calendar)
    ensures var sorted := Sort(readings, NoLater);
            Cohort(sorted, TypesOf(sorted, calendar), d) == SortedCohort(readings, calendar, d)
  {
    var sorted := Sort(readings, NoLater);
    CohortIsOfDay(sorted, TypesOf(sorted, calendar), calendar, d);
    FilterSort(readings, calendar, d);
  }

  // ---------------------------------------------------------------- scores

  /**
   The score of a component of this cohort: its residual is the median of the cohort's residuals plus the score times
   their scale, its magnitude is the residual's size, and it is anomalous when the score exceeds the threshold.
   */
  ghost predicate ScoredIn(score: Score, residuals: seq<real>, threshold: real)
    requires residuals != []
  {
    && Median(residuals) + score.zscore * Scale(Spread(residuals)) == score.component.residual
    && (score.magnitude == score.component.residual || score.magnitude == -score.component.residual)
    && score.magnitude >= 0.0
    && (score.anomalous <==> score.zscore > threshold || score.zscore < -threshold)
  }

  /** The score of position k of a cohort. */
  lemma ScoreAtMeans(cohort: seq<Reading>, k: nat, config: Config, fit: Fit)
    requires k < |cohort|
    ensures var score := ScoreAt(cohort, k, config, fit);
            score.component == fit(cohort, k) && ScoredIn(score, Residuals(cohort, fit), config.threshold)
  {
    ScoresReconstruct(Residuals(cohort, fit), k);
  }

  /**
   Every scored result stands for a position of its own day type's sorted cohort: same instant, the component the fit
   gives that position, and the score of that component among the cohort's residuals.
   */
  lemma ResultsMean(readings: seq<Reading>, calendar: seq<CalendarEntry>, config: Config, fit: Fit, i: nat)
    returns (k: nat)
    requires Outcome(readings, calendar, config, fit).Ok?
    requires i < |Outcome(readings, calendar, config, fit).value|
    ensures var result := Outcome(readings, calendar, config, fit).value[i];
            var cohort := SortedCohort(readings, calendar, result.dayType);
            && (result.score.None? <==> |cohort| < config.minHistory)
            && (result.score.Some? ==>
                  && k < |cohort| && cohort[k].ts == result.reading.ts
                  && (forall j | k < j < |cohort| :: cohort[j].ts != result.reading.ts)
                  && result.score.value.component == fit(cohort, k)
                  && ScoredIn(result.score.value, Residuals(cohort, fit), config.threshold))
  {
    var sorted := Sort(readings, NoLater);
    var types := TypesOf(sorted, calendar);
    CohortIsSorted(readings, calendar, types[i]);
    var cohort := Cohort(sorted, types, types[i]);
    var place := Place(types, i);
    assert cohort[place] == sorted[i];
    k := LastIndex(cohort, cohort[place].ts);
    ScoreAtMeans(cohort, k, config, fit);
  }
}
