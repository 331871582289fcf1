/** Maximal runs of consecutive marked positions, the shape shared by gap scanning and stuck-value detection. */
module Runs {
  import opened Wrappers

  /** The half-open block of positions [start, end). */
  datatype Run = Run(start: nat, end: nat)

  /** Non-empty runs below n, in order, with a gap between any two. */
  ghost predicate Separated(runs: seq<Run>, n: nat) {
    && (forall i | 0 <= i < |runs| :: runs[i].start < runs[i].end <= n)
    && (forall i, j | 0 <= i < j < |runs| :: runs[i].end < runs[j].start)
  }

  function RunsOf(flags: seq<bool>): (runs: seq<Run>)
    ensures Separated(runs, |flags|)
  {
    if flags == [] then []
    else Extended(RunsOf(flags[..|flags| - 1]), |flags| - 1, flags[|flags| - 1])
  }

  /** The runs after one more position n: a marked one joins the run it touches or opens a new one. */
  function Extended(before: seq<Run>, n: nat, marked: bool): (after: seq<Run>)
    requires Separated(before, n)
    ensures Separated(after, n + 1)
  {
    if !marked then before
    else if before != [] && before[|before| - 1].end == n then
      before[..|before| - 1] + [Run(before[|before| - 1].start, n + 1)]
    else before + [Run(n, n + 1)]
  }

  ghost predicate IsMaximal(flags: seq<bool>, r: Run) {
    && r.start < r.end <= |flags|
    && (forall k | r.start <= k < r.end :: flags[k])
    && (r.start == 0 || !flags[r.start - 1])
    && (r.end == |flags| || !flags[r.end])
  }

  predicate Covers(r: Run, k: nat) { r.start <= k < r.end }

  ghost predicate Covered(runs: seq<Run>, k: nat) {
    exists i :: 0 <= i < |runs| && Covers(runs[i], k)
  }

  lemma ExtendedCovers(before: seq<Run>, n: nat, marked: bool, k: nat)
    requires Separated(before, n) && k <= n
    ensures Covered(Extended(before, n, marked), k) <==> (if k < n then Covered(before, k) else marked)
  {
    var after := Extended(before, n, marked);
    if k < n && Covered(before, k) {
      var i :| 0 <= i < |before| && Covers(before[i], k);
      assert Covers(after[i], k);
    }
    if k < n && Covered(after, k) {
      var i :| 0 <= i < |after| && Covers(after[i], k);
      assert i < |before| && Covers(before[i], k);
    }
    if k == n && marked {
      assert Covers(after[|after| - 1], n);
    }
  }

  lemma {:induction false} MarkedIffCovered(flags: seq<bool>, k: nat)
    requires k < |flags|
    ensures flags[k] <==> Covered(RunsOf(flags), k)
  {
    var n := |flags| - 1;
    if k < n {
      MarkedIffCovered(flags[..n], k);
    }
    ExtendedCovers(RunsOf(flags[..n]), n, flags[n], k);
  }

  /** A position next to a run is not marked: the run would have absorbed it. */
  lemma NeighbourUnmarked(flags: seq<bool>, i: nat, k: nat)
    requires i < |RunsOf(flags)| && k < |flags|
    requires k + 1 == RunsOf(flags)[i].start || k == RunsOf(flags)[i].end
    ensures !flags[k]
  {
    var runs := RunsOf(flags);
    forall j | 0 <= j < |runs| ensures !Covers(runs[j], k) {
      assert i < j ==> runs[i].end < runs[j].start;
      assert j < i ==> runs[j].end < runs[i].start;
    }
    MarkedIffCovered(flags, k);
  }

  lemma RunsAreMaximal(flags: seq<bool>, i: nat)
    requires i < |RunsOf(flags)|
    ensures IsMaximal(flags, RunsOf(flags)[i])
  {
    var r := RunsOf(flags)[i];
    forall k | r.start <= k < r.end ensures flags[k] {
      assert Covers(r, k);
      MarkedIffCovered(flags, k);
    }
    if r.start > 0 {
      NeighbourUnmarked(flags, i, r.start - 1);
    }
    if r.end < |flags| {
      NeighbourUnmarked(flags, i, r.end);
    }
  }

  lemma MaximalOverlap(flags: seq<bool>, q: Run, r: Run, k: nat)
    requires IsMaximal(flags, q) && IsMaximal(flags, r) && Covers(q, k) && Covers(r, k)
    ensures q == r
  {
  }

  /** The scan misses no maximal block and reports nothing else. */
  lemma RunsAreExactlyTheMaximal(flags: seq<bool>, r: Run)
    ensures r in RunsOf(flags) <==> IsMaximal(flags, r)
  {
    var runs := RunsOf(flags);
    if r in runs {
      var i :| 0 <= i < |runs| && runs[i] == r;
      RunsAreMaximal(flags, i);
    }
    if IsMaximal(flags, r) {
      MarkedIffCovered(flags, r.start);
      var i :| 0 <= i < |runs| && Covers(runs[i], r.start);
      RunsAreMaximal(flags, i);
      MaximalOverlap(flags, runs[i], r, r.start);
    }
  }

  // ---------------------------------------------------------------- scanning left to right

  /** Closed runs found so far and the start of the run still open, if any. */
  ghost predicate ScanState(flags: seq<bool>, closed: seq<Run>, open: Option<nat>) {
    match open
    case None => RunsOf(flags) == closed && (closed != [] ==> closed[|closed| - 1].end < |flags|)
    case Some(start) => start < |flags| && RunsOf(flags) == closed + [Run(start, |flags|)]
  }

  /** The open run after one more position p. */
  function NextOpen(open: Option<nat>, p: nat, marked: bool): Option<nat> {
    if !marked then None else if open.None? then Some(p) else open
  }

  /** The closed runs after one more position p. */
  function NextClosed(closed: seq<Run>, open: Option<nat>, p: nat, marked: bool): seq<Run> {
    if marked || open.None? then closed else closed + [Run(open.value, p)]
  }

  /** How one more position changes the state: open, stay open, or close the run. */
  lemma ScanStep(flags: seq<bool>, marked: bool, closed: seq<Run>, open: Option<nat>)
    requires ScanState(flags, closed, open)
    ensures ScanState(flags + [marked], NextClosed(closed, open, |flags|, marked), NextOpen(open, |flags|, marked))
  {
    var next := flags + [marked];
    assert next[..|flags|] == flags;
    if open.Some? {
      var runs := closed + [Run(open.value, |flags|)];
      assert runs[..|runs| - 1] == closed;
    }
  }

  /** The same step for a scan along the prefixes of a mask. */
  lemma PrefixStep(mask: seq<bool>, p: nat, closed: seq<Run>, open: Option<nat>)
    requires p < |mask| && ScanState(mask[..p], closed, open)
    ensures ScanState(mask[..p + 1], NextClosed(closed, open, p, mask[p]), NextOpen(open, p, mask[p]))
  {
    assert mask[..p + 1] == mask[..p] + [mask[p]];
    ScanStep(mask[..p], mask[p], closed, open);
  }

  lemma ScanDone(mask: seq<bool>, closed: seq<Run>, open: Option<nat>)
    requires ScanState(mask[..|mask|], closed, open)
    ensures RunsOf(mask) == if open.Some? then closed + [Run(open.value, |mask|)] else closed
  {
    assert mask[..|mask|] == mask;
  }
}
