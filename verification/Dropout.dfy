/** Reporting dropouts: over-long silences between a circuit's raw timestamps. */
module Dropout {
  import opened Wrappers
  import opened Sorting
  import opened IngestionModels

  datatype Config = Config(expectedIntervals: map<string, int>, defaultMinutes: int, tolerance: real)

  function MaxGapMinutes(config: Config, source: string): real {
    (if source in config.expectedIntervals then config.expectedIntervals[source] else config.defaultMinutes) as real
    * config.tolerance
  }

  predicate NoLater(a: int, b: int) { a <= b }

  /** Timestamps are in seconds. */
  predicate Exceeds(a: int, b: int, maxGapMinutes: real) {
    (b - a) as real > 60.0 * maxGapMinutes
  }

  function DropoutIssue(circuit: Id, a: int, b: int): QualityIssue {
    QualityIssue(IssueType.Dropout, Degraded, Some(circuit), Some(a), Some(b))
  }

  /** The issues of the neighbouring pairs of an ordered series. */
  function GapsOf(sorted: seq<int>, circuit: Id, maxGapMinutes: real): seq<QualityIssue> {
    if |sorted| < 2 then []
    else
      var n := |sorted| - 1;
      GapsOf(sorted[..n], circuit, maxGapMinutes)
      + (if Exceeds(sorted[n - 1], sorted[n], maxGapMinutes)
         then [DropoutIssue(circuit, sorted[n - 1], sorted[n])] else [])
  }

  method DetectDropout(timestamps: seq<int>, circuit: Id, source: string, config: Config)
    returns (issues: seq<QualityIssue>)
    ensures issues == GapsOf(Sort(timestamps, NoLater), circuit, MaxGapMinutes(config, source))
  {
    var maxGapMinutes := MaxGapMinutes(config, source);
    var sorted := Sort(timestamps, NoLater);
    issues := [];
    if |sorted| < 2 {
      return;
    }
    for i := 1 to |sorted|
      invariant issues == GapsOf(sorted[..i], circuit, maxGapMinutes)
    {
      assert sorted[..i + 1][..i] == sorted[..i];
      if Exceeds(sorted[i - 1], sorted[i], maxGapMinutes) {
        issues := issues + [DropoutIssue(circuit, sorted[i - 1], sorted[i])];
      }
    }
    assert sorted[..|sorted|] == sorted;
  }

  /** Two reports with nothing in between. */
  predicate Silence(timestamps: seq<int>, a: int, b: int) {
    a in timestamps && b in timestamps && a < b && forall t | t in timestamps :: t <= a || t >= b
  }

  /** One more report can only add the gap before it. */
  lemma GapsOfOneMore(sorted: seq<int>, last: int, circuit: Id, maxGapMinutes: real, a: int, b: int)
    requires sorted != []
    ensures DropoutIssue(circuit, a, b) in GapsOf(sorted + [last], circuit, maxGapMinutes) <==>
            DropoutIssue(circuit, a, b) in GapsOf(sorted, circuit, maxGapMinutes)
            || (a == sorted[|sorted| - 1] && b == last && Exceeds(a, b, maxGapMinutes))
  {
    var s := sorted + [last];
    assert s[..|s| - 1] == sorted;
    assert s[|s| - 2] == sorted[|sorted| - 1] && s[|s| - 1] == last;
  }

  lemma OrderedPrefix(sorted: seq<int>, last: int)
    requires Ordered(sorted + [last], NoLater)
    ensures Ordered(sorted, NoLater)
  {
    var s := sorted + [last];
    forall i, j | 0 <= i < j < |sorted| ensures NoLater(sorted[i], sorted[j]) {
      assert NoLater(s[i], s[j]);
    }
  }

  lemma NoSilenceAlone(sorted: seq<int>, a: int, b: int)
    requires |sorted| < 2
    ensures !Silence(sorted, a, b)
  {
  }

  lemma {:induction false} GapsOfExactly(sorted: seq<int>, circuit: Id, maxGapMinutes: real, a: int, b: int)
    requires Ordered(sorted, NoLater) && maxGapMinutes >= 0.0
    ensures DropoutIssue(circuit, a, b) in GapsOf(sorted, circuit, maxGapMinutes) <==>
            Silence(sorted, a, b) && Exceeds(a, b, maxGapMinutes)
    decreases |sorted|
  {
    if |sorted| < 2 {
      NoSilenceAlone(sorted, a, b);
    } else {
      GapsOfStep(sorted[..|sorted| - 1], sorted[|sorted| - 1], sorted, circuit, maxGapMinutes, a, b);
    }
  }

  lemma GapsOfStep(front: seq<int>, last: int, sorted: seq<int>, circuit: Id, maxGapMinutes: real, a: int, b: int)
    requires front != [] && sorted == front + [last]
    requires Ordered(sorted, NoLater) && maxGapMinutes >= 0.0
    ensures DropoutIssue(circuit, a, b) in GapsOf(sorted, circuit, maxGapMinutes) <==>
            Silence(sorted, a, b) && Exceeds(a, b, maxGapMinutes)
    decreases |sorted|, 0
  {
    OrderedPrefix(front, last);
    GapsOfExactly(front, circuit, maxGapMinutes, a, b);
    GapsOfOneMore(front, last, circuit, maxGapMinutes, a, b);
    LastSilence(front, last, a, b);
    if Exceeds(a, b, maxGapMinutes) {
      ExceedsOnlyForward(a, b, maxGapMinutes);
    }
  }

  lemma ExceedsOnlyForward(a: int, b: int, maxGapMinutes: real)
    requires maxGapMinutes >= 0.0 && Exceeds(a, b, maxGapMinutes)
    ensures a < b
  {
  }

  /** A later report adds the silence before it, if it is not simultaneous, and disturbs no earlier one. */
  lemma LastSilence(sorted: seq<int>, last: int, a: int, b: int)
    requires Ordered(sorted + [last], NoLater) && sorted != []
    ensures Silence(sorted + [last], a, b) <==>
            Silence(sorted, a, b) || (a == sorted[|sorted| - 1] && b == last && a < b)
  {
    LastIsLatest(sorted, last);
    var m := sorted[|sorted| - 1];
    assert m in sorted;
    assert forall t :: t in sorted + [last] <==> t in sorted || t == last;
  }

  lemma LastIsLatest(sorted: seq<int>, last: int)
    requires Ordered(sorted + [last], NoLater) && sorted != []
    ensures forall t | t in sorted :: t <= sorted[|sorted| - 1]
    ensures sorted[|sorted| - 1] <= last
  {
    var s := sorted + [last];
    forall t | t in sorted ensures t <= sorted[|sorted| - 1] {
      var i :| 0 <= i < |sorted| && sorted[i] == t;
      assert i < |sorted| - 1 ==> NoLater(s[i], s[|sorted| - 1]);
    }
    assert NoLater(s[|sorted| - 1], s[|sorted|]);
  }

  /** Whatever the arrival order, exactly the silences longer than the tolerance are reported. */
  lemma DropoutExactly(timestamps: seq<int>, circuit: Id, maxGapMinutes: real, a: int, b: int)
    requires maxGapMinutes >= 0.0
    ensures DropoutIssue(circuit, a, b) in GapsOf(Sort(timestamps, NoLater), circuit, maxGapMinutes) <==>
            Silence(timestamps, a, b) && Exceeds(a, b, maxGapMinutes)
  {
    SortProperties(timestamps, NoLater);
    SortMembers(timestamps, NoLater);
    GapsOfExactly(Sort(timestamps, NoLater), circuit, maxGapMinutes, a, b);
  }

  /** The silence in minutes is longer than the source's expected interval times the tolerance. */
  predicate TooQuiet(a: int, b: int, config: Config, source: string) {
    var expected := match Lookup(config.expectedIntervals, source) case Some(n) => n case None => config.defaultMinutes;
    (b - a) as real / 60.0 > expected as real * config.tolerance
  }

  lemma ExceedsMeans(a: int, b: int, config: Config, source: string)
    ensures Exceeds(a, b, MaxGapMinutes(config, source)) <==> TooQuiet(a, b, config, source)
  {
  }

  /** The issue that reports a silence: from its last report before to its first report after. */
  predicate ReportsSilence(i: QualityIssue, circuit: Id, a: int, b: int) {
    && i.issueType == IssueType.Dropout && i.severity == Degraded && i.circuit == Some(circuit)
    && i.tsStart == Some(a) && i.tsEnd == Some(b)
  }

  /** Exactly the silences that are too long for their source are reported, each from its start to its end. */
  lemma DropoutMeans(timestamps: seq<int>, circuit: Id, source: string, config: Config, i: QualityIssue, a: int, b: int)
    requires MaxGapMinutes(config, source) >= 0.0 && ReportsSilence(i, circuit, a, b)
    ensures i in GapsOf(Sort(timestamps, NoLater), circuit, MaxGapMinutes(config, source)) <==>
            Silence(timestamps, a, b) && TooQuiet(a, b, config, source)
  {
    DropoutExactly(timestamps, circuit, MaxGapMinutes(config, source), a, b);
    ExceedsMeans(a, b, config, source);
  }
}
