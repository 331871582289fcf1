/** Stuck-at-value detection of the sensor fault step. */
module StuckAtValue {
  import opened Wrappers
  import opened Statistics
  import opened Sorting
  import opened IngestionModels
  import opened Runs

  datatype Reading = Reading(ts: int, kwh: Option<real>)

  datatype Thresholds = Thresholds(variance: real, windowSize: nat, durationHours: int)

  predicate NoLater(a: Sample, b: Sample) { a.ts <= b.ts }

  function Present(readings: seq<Reading>): seq<Sample> {
    if readings == [] then []
    else (match readings[0].kwh
          case Some(kwh) => [Sample(readings[0].ts, kwh)]
          case None => []) + Present(readings[1..])
  }

  function SortedSamples(readings: seq<Reading>): seq<Sample> {
    Sort(Present(readings), NoLater)
  }

  /** Variance with the n divisor, as numpy's var computes it. */
  function PopulationVariance(win: seq<real>): real
    requires win != []
  {
    SumSquares(Centered(win, Mean(win))) / |win| as real
  }

  predicate IsStuck(win: seq<real>, limit: real)
    requires win != []
  {
    PopulationVariance(win) <= limit
  }

  function WindowCount(n: nat, w: nat): nat {
    if n >= w then n - w + 1 else 0
  }

  /** The verdict on each window, indexed by the window's first position. */
  function StuckWindows(values: seq<real>, w: nat, limit: real): (mask: seq<bool>)
    requires w >= 1
    ensures |mask| == WindowCount(|values|, w)
    ensures forall p | 0 <= p < |mask| :: mask[p] <==> IsStuck(values[p..p + w], limit)
  {
    seq(WindowCount(|values|, w), p requires 0 <= p < WindowCount(|values|, w) => IsStuck(values[p..p + w], limit))
  }

  predicate LongEnough(samples: seq<Sample>, startIdx: nat, endIdx: nat, durationHours: int)
    requires startIdx < |samples| && endIdx < |samples|
  {
    samples[endIdx].ts - samples[startIdx].ts >= HOUR * durationHours
  }

  function StuckIssue(samples: seq<Sample>, startIdx: nat, endIdx: nat, circuit: Id, mainFeed: bool): QualityIssue
    requires startIdx < |samples| && endIdx < |samples|
  {
    QualityIssue(IssueType.StuckAtValue, if mainFeed then Quarantined else Degraded, Some(circuit),
                 Some(samples[startIdx].ts), Some(samples[endIdx].ts))
  }

  /** What a closed block contributes: an issue if it lasts long enough. */
  function IssueOf(samples: seq<Sample>, startIdx: nat, endIdx: nat, th: Thresholds, circuit: Id,
                   mainFeed: bool): seq<QualityIssue>
    requires startIdx < |samples| && endIdx < |samples|
  {
    if LongEnough(samples, startIdx, endIdx, th.durationHours)
    then [StuckIssue(samples, startIdx, endIdx, circuit, mainFeed)] else []
  }

  predicate BlockInside(b: Run, w: nat, n: nat) {
    w >= 1 && b.start < b.end && b.end + w - 1 <= n
  }

  predicate Inside(blocks: seq<Run>, w: nat, n: nat) {
    blocks != [] ==> Inside(blocks[..|blocks| - 1], w, n) && BlockInside(blocks[|blocks| - 1], w, n)
  }

  lemma {:induction false} EachInside(blocks: seq<Run>, w: nat, n: nat)
    requires forall i | 0 <= i < |blocks| :: BlockInside(blocks[i], w, n)
    ensures Inside(blocks, w, n)
  {
    if blocks != [] {
      EachInside(blocks[..|blocks| - 1], w, n);
    }
  }

  /**
   The issues of the blocks that last long enough, in order. A block of stuck windows spans
   the first window's first position to the last window's last position.
   */
  function StuckIssues(samples: seq<Sample>, blocks: seq<Run>, th: Thresholds, circuit: Id,
                       mainFeed: bool): seq<QualityIssue>
    requires Inside(blocks, th.windowSize, |samples|)
  {
    if blocks == [] then []
    else
      var n := |blocks| - 1;
      StuckIssues(samples, blocks[..n], th, circuit, mainFeed)
      + IssueOf(samples, blocks[n].start, blocks[n].end + th.windowSize - 2, th, circuit, mainFeed)
  }

  /** _maybe_add_stuck_issue: the block closed at position endIdx is reported if it spans the duration. */
  method MaybeAddStuckIssue(issues: seq<QualityIssue>, startIdx: nat, endIdx: nat, samples: seq<Sample>,
                            th: Thresholds, circuit: Id, mainFeed: bool)
    returns (extended: seq<QualityIssue>)
    requires startIdx < |samples| && endIdx < |samples|
    ensures extended == issues + IssueOf(samples, startIdx, endIdx, th, circuit, mainFeed)
  {
    extended := issues;
    if samples[endIdx].ts - samples[startIdx].ts >= HOUR * th.durationHours {
      var severity := if mainFeed then Quarantined else Degraded;
      extended := extended + [QualityIssue(IssueType.StuckAtValue, severity, Some(circuit),
                                           Some(samples[startIdx].ts), Some(samples[endIdx].ts))];
    }
  }

  method DetectStuckAtValue(readings: seq<Reading>, circuit: Id, mainFeed: bool, th: Thresholds)
    returns (issues: seq<QualityIssue>)
    requires th.windowSize >= 1
    ensures var samples := SortedSamples(readings);
            var blocks := RunsOf(StuckWindows(Values(samples), th.windowSize, th.variance));
            Inside(blocks, th.windowSize, |samples|) &&
            issues == StuckIssues(samples, blocks, th, circuit, mainFeed)
  {
    var samples := SortedSamples(readings);
    var w := th.windowSize;
    if |samples| < w {
      return [];
    }
    var mask := StuckWindows(Values(samples), w, th.variance);
    issues := ScanWindows(samples, mask, th, circuit, mainFeed);
  }

  /** The issues so far are those of the closed blocks. */
  ghost predicate Recorded(issues: seq<QualityIssue>, closed: seq<Run>, samples: seq<Sample>, th: Thresholds,
                           circuit: Id, mainFeed: bool)
  {
    Inside(closed, th.windowSize, |samples|) && issues == StuckIssues(samples, closed, th, circuit, mainFeed)
  }

  /** The loop over window positions; i is the window's last position, as in the source. */
  method ScanWindows(samples: seq<Sample>, mask: seq<bool>, th: Thresholds, circuit: Id, mainFeed: bool)
    returns (issues: seq<QualityIssue>)
    requires 1 <= th.windowSize <= |samples| && |mask| == |samples| - th.windowSize + 1
    ensures Recorded(issues, RunsOf(mask), samples, th, circuit, mainFeed)
  {
    issues := [];
    var stuckStart: Option<nat> := None;
    ghost var closed: seq<Run> := [];
    ghost var p := 0;
    var i := th.windowSize - 1;
    while i < |samples|
      invariant 0 <= p <= |mask| && i == p + th.windowSize - 1
      invariant ScanState(mask[..p], closed, stuckStart)
      invariant Recorded(issues, closed, samples, th, circuit, mainFeed)
    {
      issues, stuckStart, closed := VisitWindow(mask, i - th.windowSize + 1, issues, stuckStart, closed, samples, th,
                                                circuit, mainFeed);
      p := p + 1;
      i := i + 1;
    }
    ScanDone(mask, closed, stuckStart);
    if stuckStart.Some? {
      issues := CloseBlock(issues, closed, Run(stuckStart.value, |mask|), samples, |samples| - 1, th, circuit,
                           mainFeed);
    }
  }

  /** One window: open a block, stay in it, or close it. */
  method VisitWindow(mask: seq<bool>, start: nat, issues: seq<QualityIssue>, stuckStart: Option<nat>,
                     ghost closed: seq<Run>,
                     samples: seq<Sample>, th: Thresholds, circuit: Id, mainFeed: bool)
    returns (extended: seq<QualityIssue>, nextStart: Option<nat>, ghost nextClosed: seq<Run>)
    requires 1 <= th.windowSize && start < |mask| && start + th.windowSize <= |samples|
    requires ScanState(mask[..start], closed, stuckStart)
    requires Recorded(issues, closed, samples, th, circuit, mainFeed)
    ensures nextStart == NextOpen(stuckStart, start, mask[start])
    ensures ScanState(mask[..start + 1], nextClosed, nextStart)
    ensures Recorded(extended, nextClosed, samples, th, circuit, mainFeed)
  {
    PrefixStep(mask, start, closed, stuckStart);
    extended, nextStart, nextClosed := issues, stuckStart, closed;
    if mask[start] {
      if stuckStart.None? {
        nextStart := Some(start);
      }
    } else if stuckStart.Some? {
      extended := CloseBlock(issues, closed, Run(stuckStart.value, start), samples, start + th.windowSize - 2, th,
                             circuit, mainFeed);
      nextStart, nextClosed := None, closed + [Run(stuckStart.value, start)];
    }
  }

  /** Closing a block: the issues of the closed blocks stay exactly the reported ones. */
  method CloseBlock(issues: seq<QualityIssue>, ghost closed: seq<Run>, block: Run, samples: seq<Sample>, endIdx: nat,
                    th: Thresholds, circuit: Id, mainFeed: bool)
    returns (extended: seq<QualityIssue>)
    requires Recorded(issues, closed, samples, th, circuit, mainFeed) && BlockInside(block, th.windowSize, |samples|)
    requires endIdx == block.end + th.windowSize - 2
    ensures Recorded(extended, closed + [block], samples, th, circuit, mainFeed)
  {
    extended := MaybeAddStuckIssue(issues, block.start, endIdx, samples, th, circuit, mainFeed);
    OneMoreBlock(samples, closed, block, th, circuit, mainFeed);
  }

  lemma OneMoreBlock(samples: seq<Sample>, blocks: seq<Run>, b: Run, th: Thresholds, circuit: Id, mainFeed: bool)
    requires Inside(blocks, th.windowSize, |samples|) && BlockInside(b, th.windowSize, |samples|)
    ensures Inside(blocks + [b], th.windowSize, |samples|)
    ensures StuckIssues(samples, blocks + [b], th, circuit, mainFeed) ==
            StuckIssues(samples, blocks, th, circuit, mainFeed)
            + IssueOf(samples, b.start, b.end + th.windowSize - 2, th, circuit, mainFeed)
  {
    assert (blocks + [b])[..|blocks|] == blocks;
  }

  // ---------------------------------------------------------------- what is reported

  /** The block spans the duration and the issue is its report. */
  predicate Reports(samples: seq<Sample>, block: Run, th: Thresholds, circuit: Id, mainFeed: bool, issue: QualityIssue)
  {
    BlockInside(block, th.windowSize, |samples|) &&
    var endIdx := block.end + th.windowSize - 2;
    LongEnough(samples, block.start, endIdx, th.durationHours) &&
    issue == StuckIssue(samples, block.start, endIdx, circuit, mainFeed)
  }

  lemma {:induction false} StuckIssuesAre(samples: seq<Sample>, blocks: seq<Run>, th: Thresholds,
                                          circuit: Id, mainFeed: bool, issue: QualityIssue)
    requires Inside(blocks, th.windowSize, |samples|)
    ensures issue in StuckIssues(samples, blocks, th, circuit, mainFeed) <==>
            exists b :: b in blocks && Reports(samples, b, th, circuit, mainFeed, issue)
  {
    if blocks != [] {
      var front, last := blocks[..|blocks| - 1], blocks[|blocks| - 1];
      assert blocks == front + [last];
      assert BlockInside(last, th.windowSize, |samples|);
      StuckIssuesAre(samples, front, th, circuit, mainFeed, issue);
      assert issue in IssueOf(samples, last.start, last.end + th.windowSize - 2, th, circuit, mainFeed)
             <==> Reports(samples, last, th, circuit, mainFeed, issue);
    }
  }

  /** Exactly the maximal blocks of consecutive stuck windows that span the duration are reported. */
  lemma ReportedExactly(samples: seq<Sample>, th: Thresholds, circuit: Id, mainFeed: bool, issue: QualityIssue)
    requires th.windowSize >= 1
    ensures var mask := StuckWindows(Values(samples), th.windowSize, th.variance);
            Inside(RunsOf(mask), th.windowSize, |samples|) &&
            (issue in StuckIssues(samples, RunsOf(mask), th, circuit, mainFeed) <==>
             exists block :: IsMaximal(mask, block) && Reports(samples, block, th, circuit, mainFeed, issue))
  {
    var mask := StuckWindows(Values(samples), th.windowSize, th.variance);
    EachInside(RunsOf(mask), th.windowSize, |samples|);
    StuckIssuesAre(samples, RunsOf(mask), th, circuit, mainFeed, issue);
    forall block ensures block in RunsOf(mask) <==> IsMaximal(mask, block) {
      RunsAreExactlyTheMaximal(mask, block);
    }
  }

  // ---------------------------------------------------------------- how far apart stuck readings can be

  lemma DifferenceSquared(x: real, y: real, difference: real, bound: real)
    requires x * x + y * y <= bound && difference == x - y
    ensures difference * difference <= 2.0 * bound
  {
    SquareNonNegative(x + y);
    assert (x - y) * (x - y) + (x + y) * (x + y) == 2.0 * (x * x + y * y);
  }

  lemma VarianceBoundsSquares(win: seq<real>, limit: real, n: real, bound: real)
    requires win != [] && IsStuck(win, limit) && n == |win| as real && bound == n * limit
    ensures SumSquares(Centered(win, Mean(win))) <= bound
  {
    QuotientBound(SumSquares(Centered(win, Mean(win))), n, limit);
  }

  lemma PairInTotal(d: seq<real>, i: nat, j: nat, difference: real, bound: real)
    requires i < j < |d| && difference == d[i] - d[j] && SumSquares(d) <= bound
    ensures difference * difference <= 2.0 * bound
  {
    TwoSquaresArePart(d, i, j);
    DifferenceSquared(d[i], d[j], difference, SumSquares(d));
  }

  lemma CloseWithin(win: seq<real>, limit: real, i: nat, j: nat, difference: real, bound: real)
    requires i < j < |win| && IsStuck(win, limit)
    requires difference == win[i] - win[j] && bound == |win| as real * limit
    ensures difference * difference <= 2.0 * bound
  {
    VarianceBoundsSquares(win, limit, |win| as real, bound);
    PairInTotal(Centered(win, Mean(win)), i, j, difference, bound);
  }

  /** Any two readings of a stuck window of w values differ by at most the square root of 2 w v. */
  lemma StuckReadingsAreClose(win: seq<real>, limit: real, i: nat, j: nat)
    requires i < j < |win| && IsStuck(win, limit)
    ensures (win[i] - win[j]) * (win[i] - win[j]) <= 2.0 * (|win| as real * limit)
  {
    CloseWithin(win, limit, i, j, win[i] - win[j], |win| as real * limit);
  }

  // ---------------------------------------------------------------- what the pieces mean

  lemma {:induction false} PresentMembers(readings: seq<Reading>, ts: int, kwh: real)
    ensures Sample(ts, kwh) in Present(readings) <==> Reading(ts, Some(kwh)) in readings
  {
    if readings != [] {
      assert readings == [readings[0]] + readings[1..];
      PresentMembers(readings[1..], ts, kwh);
    }
  }

  /** The windows run over the readings that have a value, in ascending time. */
  lemma SamplesAscend(readings: seq<Reading>)
    ensures var s := SortedSamples(readings);
            && (forall i, j | 0 <= i < j < |s| :: s[i].ts <= s[j].ts)
            && multiset(s) == multiset(Present(readings))
  {
    SortProperties(Present(readings), NoLater);
    var s := SortedSamples(readings);
    forall i, j | 0 <= i < j < |s| ensures s[i].ts <= s[j].ts {
      assert NoLater(s[i], s[j]);
    }
  }

  /** A window starts wherever w values follow. */
  lemma WindowCountMeans(n: nat, w: nat, p: nat)
    requires w >= 1
    ensures p < WindowCount(n, w) <==> p + w <= n
  {
  }

  /** A block is reported when at least so many hours of 3600 seconds lie between its first and last reading. */
  lemma LongEnoughMeans(samples: seq<Sample>, startIdx: nat, endIdx: nat, hours: int)
    requires startIdx < |samples| && endIdx < |samples|
    ensures LongEnough(samples, startIdx, endIdx, hours) <==>
            !(samples[endIdx].ts < samples[startIdx].ts + 3600 * hours)
  {
  }

  lemma {:induction false} ZeroSquares(d: seq<real>)
    requires forall i | 0 <= i < |d| :: d[i] == 0.0
    ensures SumSquares(d) == 0.0
  {
    if d != [] {
      ZeroSquares(d[1..]);
    }
  }

  lemma {:induction false} ConstantSum(win: seq<real>, c: real)
    requires forall i | 0 <= i < |win| :: win[i] == c
    ensures Sum(win) == |win| as real * c
  {
    if win != [] {
      ConstantSum(win[1..], c);
    }
  }

  lemma ConstantMean(win: seq<real>, c: real, n: real)
    requires win != [] && n == |win| as real && forall i | 0 <= i < |win| :: win[i] == c
    ensures Mean(win) == c
  {
    ConstantSum(win, c);
    QuotientIs(Sum(win), n, c);
  }

  /** With a limit of zero exactly the windows without any change are stuck: the limit itself still counts. */
  lemma ZeroLimitExactly(win: seq<real>)
    requires win != []
    ensures IsStuck(win, 0.0) <==> forall i, j | 0 <= i < j < |win| :: win[i] == win[j]
  {
    if IsStuck(win, 0.0) {
      forall i, j | 0 <= i < j < |win| ensures win[i] == win[j] {
        StuckReadingsAreClose(win, 0.0, i, j);
        ZeroSquare(win[i] - win[j], 2.0 * (|win| as real * 0.0));
      }
    }
    if forall i, j | 0 <= i < j < |win| :: win[i] == win[j] {
      var n := |win| as real;
      assert forall i | 0 <= i < |win| :: win[i] == win[0];
      ConstantMean(win, win[0], n);
      ZeroSquares(Centered(win, Mean(win)));
      QuotientIs(0.0, n, 0.0);
    }
  }
}
