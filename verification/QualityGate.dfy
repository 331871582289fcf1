/**
 The Data Quality Gate: issues are applied to readings in place, the batch is classified, then published or
 alerted.
 */
module QualityGate {
  import opened Wrappers
  import opened IngestionModels

  /** A normalised reading; only its status changes after construction. */
  class Reading {
    const circuit: Id
    const ts: int
    const kwh: Option<real>
    var status: Status

    constructor (circuit: Id, ts: int, kwh: Option<real>, status: Status)
      ensures this.circuit == circuit && this.ts == ts && this.kwh == kwh && this.status == status
    {
      this.circuit, this.ts, this.kwh, this.status := circuit, ts, kwh, status;
    }
  }

  // ---------------------------------------------------------------- which readings an issue affects

  predicate IssueAffects(issue: QualityIssue, circuit: Id, ts: int) {
    if issue.circuit.Some? && issue.circuit.value != circuit then false
    else if issue.circuit.None? then true
    else if issue.tsStart.Some? && issue.tsEnd.Some? then issue.tsStart.value <= ts <= issue.tsEnd.value
    else if issue.tsStart.Some? then ts == issue.tsStart.value
    else true
  }

  /** The issue names another circuit, or a stretch of its own circuit that does not cover this instant. */
  predicate Elsewhere(issue: QualityIssue, circuit: Id, ts: int) {
    issue.circuit.Some? &&
    (issue.circuit.value != circuit ||
     (issue.tsStart.Some? && (ts < issue.tsStart.value || ts > LastInstant(issue, issue.tsStart.value))))
  }

  /** Without an end an issue concerns its first instant only. */
  function LastInstant(issue: QualityIssue, first: int): int {
    match issue.tsEnd case Some(last) => last case None => first
  }

  /** A status after the issues were applied one by one. */
  function Applied(status: Status, issues: seq<QualityIssue>, circuit: Id, ts: int): Status {
    if issues == [] then status
    else
      var before, last := Applied(status, issues[..|issues| - 1], circuit, ts), issues[|issues| - 1];
      if IssueAffects(last, circuit, ts) then WorseStatus(before, last.severity) else before
  }

  /** The nested loop of _apply_issues, updating the readings in place; a reading may occur twice in the list. */
  method ApplyIssues(readings: seq<Reading>, issues: seq<QualityIssue>)
    modifies readings
    ensures forall r | r in readings :: r.status == Applied(old(r.status), issues, r.circuit, r.ts)
  {
    for k := 0 to |issues|
      invariant forall r | r in readings :: r.status == Applied(old(r.status), issues[..k], r.circuit, r.ts)
    {
      var issue := issues[k];
      assert issues[..k + 1][..k] == issues[..k];
      for j := 0 to |readings|
        invariant forall r | r in readings ::
                    r.status == Applied(old(r.status), issues[..if r in readings[..j] then k + 1 else k], r.circuit,
                                        r.ts)
      {
        var r := readings[j];
        if IssueAffects(issue, r.circuit, r.ts) {
          r.status := WorseStatus(r.status, issue.severity);
        }
        assert forall x :: x in readings[..j + 1] <==> x in readings[..j] || x == r;
      }
      assert readings[..|readings|] == readings;
    }
    assert issues[..|issues|] == issues;
  }

  /** Issues elsewhere leave a status alone; the others have their say whatever else is in the list. */
  lemma {:induction false} OnlyOwnIssuesCount(status: Status, issues: seq<QualityIssue>, circuit: Id, ts: int)
    ensures (forall i | i in issues :: Elsewhere(i, circuit, ts)) ==> Applied(status, issues, circuit, ts) == status
    ensures forall i | i in issues && !Elsewhere(i, circuit, ts) ::
              Rank(Applied(status, issues, circuit, ts)) >= Rank(i.severity)
    ensures Applied(status, issues, circuit, ts) == status ||
            exists i :: i in issues && !Elsewhere(i, circuit, ts) && Applied(status, issues, circuit, ts) == i.severity
  {
    if issues != [] {
      var front, last := issues[..|issues| - 1], issues[|issues| - 1];
      assert issues == front + [last];
      OnlyOwnIssuesCount(status, front, circuit, ts);
      assert IssueAffects(last, circuit, ts) <==> !Elsewhere(last, circuit, ts);
      var before, after := Applied(status, front, circuit, ts), Applied(status, issues, circuit, ts);
      WorseStatusIsJoin(before, last.severity, after);
      assert after == before || after == last.severity;
      assert last in issues && forall i | i in front :: i in issues;
    }
  }

  // ---------------------------------------------------------------- the result is a join

  /** worse_status is a join: commutative, associative, idempotent, and an upper bound. */
  lemma WorseStatusIsJoin(a: Status, b: Status, c: Status)
    ensures WorseStatus(a, b) == WorseStatus(b, a)
    ensures WorseStatus(a, WorseStatus(b, c)) == WorseStatus(WorseStatus(a, b), c)
    ensures WorseStatus(a, a) == a
    ensures Rank(WorseStatus(a, b)) <= Rank(c) <==> Rank(a) <= Rank(c) && Rank(b) <= Rank(c)
  {
  }

  /** The status is bounded by c exactly when the initial status and every affecting severity are. */
  lemma {:induction false} AppliedIsLeast(status: Status, issues: seq<QualityIssue>, circuit: Id, ts: int, c: Status)
    ensures Rank(Applied(status, issues, circuit, ts)) <= Rank(c) <==>
            Rank(status) <= Rank(c) &&
            forall i | i in issues :: IssueAffects(i, circuit, ts) ==> Rank(i.severity) <= Rank(c)
  {
    if issues != [] {
      var front, last := issues[..|issues| - 1], issues[|issues| - 1];
      assert issues == front + [last];
      AppliedIsLeast(status, front, circuit, ts, c);
    }
  }

  /** Only which issues there are matters, not their order or repetition. */
  lemma AppliedOrderFree(status: Status, a: seq<QualityIssue>, b: seq<QualityIssue>, circuit: Id, ts: int)
    requires forall i :: i in a <==> i in b
    ensures Applied(status, a, circuit, ts) == Applied(status, b, circuit, ts)
  {
    var x, y := Applied(status, a, circuit, ts), Applied(status, b, circuit, ts);
    AppliedIsLeast(status, a, circuit, ts, x);
    AppliedIsLeast(status, b, circuit, ts, x);
    AppliedIsLeast(status, a, circuit, ts, y);
    AppliedIsLeast(status, b, circuit, ts, y);
  }

  // ---------------------------------------------------------------- bounds and schema checks

  datatype Bounds = Bounds(minKwh: real, maxKwh: real)

  datatype BoundsConfig = BoundsConfig(
    circuitTypes: map<Id, string>,
    typeBounds: map<string, Bounds>,
    defaultBounds: Bounds)

  function BoundsFor(config: BoundsConfig, circuit: Id): Bounds {
    var circuitType := if circuit in config.circuitTypes then config.circuitTypes[circuit] else "unknown";
    if circuitType in config.typeBounds then config.typeBounds[circuitType] else config.defaultBounds
  }

  predicate Plausible(config: BoundsConfig, r: Reading) {
    r.kwh.None? ||
    BoundsFor(config, r.circuit).minKwh <= r.kwh.value <= BoundsFor(config, r.circuit).maxKwh
  }

  /** The bounds are those of the circuit's declared type, of type "unknown" without one, or the default ones. */
  predicate BoundsApply(config: BoundsConfig, circuit: Id, b: Bounds) {
    || (circuit in config.circuitTypes && config.circuitTypes[circuit] in config.typeBounds
        && b == config.typeBounds[config.circuitTypes[circuit]])
    || (circuit !in config.circuitTypes && "unknown" in config.typeBounds && b == config.typeBounds["unknown"])
    || (circuit in config.circuitTypes && config.circuitTypes[circuit] !in config.typeBounds
        && b == config.defaultBounds)
    || (circuit !in config.circuitTypes && "unknown" !in config.typeBounds && b == config.defaultBounds)
  }

  /** A reading is implausible exactly when its value lies strictly outside the bounds that apply to its circuit. */
  lemma PlausibleMeans(config: BoundsConfig, r: Reading, b: Bounds)
    requires BoundsApply(config, r.circuit, b)
    ensures Plausible(config, r) <==> !(r.kwh.Some? && (r.kwh.value < b.minKwh || r.kwh.value > b.maxKwh))
  {
  }

  function BoundsIssue(r: Reading): QualityIssue {
    QualityIssue(ImplausibleValue, Quarantined, Some(r.circuit), Some(r.ts), Some(r.ts))
  }

  function BoundsIssues(readings: seq<Reading>, config: BoundsConfig): (issues: seq<QualityIssue>)
    ensures forall i | i in issues :: exists r :: r in readings && !Plausible(config, r) && i == BoundsIssue(r)
    ensures forall r | r in readings && !Plausible(config, r) :: BoundsIssue(r) in issues
  {
    if readings == [] then []
    else
      var last := readings[|readings| - 1];
      assert readings == readings[..|readings| - 1] + [last];
      BoundsIssues(readings[..|readings| - 1], config) + (if Plausible(config, last) then [] else [BoundsIssue(last)])
  }

  method CheckBounds(readings: seq<Reading>, config: BoundsConfig) returns (issues: seq<QualityIssue>)
    ensures issues == BoundsIssues(readings, config)
  {
    issues := [];
    for k := 0 to |readings|
      invariant issues == BoundsIssues(readings[..k], config)
    {
      var r := readings[k];
      assert readings[..k + 1][..k] == readings[..k];
      if r.kwh.Some? {
        var bounds := BoundsFor(config, r.circuit);
        if r.kwh.value < bounds.minKwh || r.kwh.value > bounds.maxKwh {
          issues := issues + [BoundsIssue(r)];
        }
      }
    }
    assert readings[..|readings|] == readings;
  }

  /** Column names as compared by the source: trimmed and lower-cased. */
  datatype Schema = Schema(expected: set<string>, required: set<string>)

  predicate RequiredMissing(actual: set<string>, schema: Schema) {
    exists c :: c in schema.required && c in schema.expected && c !in actual
  }

  /** At most one batch-wide issue, quarantining exactly when an expected required column is absent. */
  function CheckSchemaDrift(actual: set<string>, schema: Schema): (issues: seq<QualityIssue>)
    ensures issues == [] <==> schema.expected == {} || actual == schema.expected
    ensures |issues| <= 1
    ensures forall i | i in issues :: i.issueType == SchemaDrift && forall circuit, ts :: IssueAffects(i, circuit, ts)
    ensures forall i | i in issues :: i.severity == if RequiredMissing(actual, schema) then Quarantined else Degraded
  {
    var missing, extra := schema.expected - actual, actual - schema.expected;
    var missingRequired := schema.required * missing;
    assert missing == {} && extra == {} <==> actual == schema.expected;
    assert missingRequired != {} <==> exists c :: c in missingRequired;
    assert forall c :: c in missingRequired <==> c in schema.required && c in schema.expected && c !in actual;
    if schema.expected == {} then []
    else if missingRequired != {} then [QualityIssue(SchemaDrift, Quarantined, None, None, None)]
    else if missing != {} || extra != {} then [QualityIssue(SchemaDrift, Degraded, None, None, None)]
    else []
  }

  // ---------------------------------------------------------------- classification

  function Statuses(readings: seq<Reading>): (s: seq<Status>)
    reads readings
    ensures |s| == |readings| && forall k | 0 <= k < |s| :: s[k] == readings[k].status
  {
    seq(|readings|, k requires 0 <= k < |readings| reads readings => readings[k].status)
  }

  function ComputeBatchStatus(statuses: seq<Status>): Status {
    if statuses == [] then Quarantined
    else if forall s | s in statuses :: s == Quarantined then Quarantined
    else if forall s | s in statuses :: s == Pass then Pass
    else Degraded
  }

  function CountOf(statuses: seq<Status>, s: Status): nat {
    if statuses == [] then 0 else (if statuses[0] == s then 1 else 0) + CountOf(statuses[1..], s)
  }

  /** The three counts partition the batch. */
  lemma {:induction false} CountsPartition(statuses: seq<Status>)
    ensures CountOf(statuses, Pass) + CountOf(statuses, Degraded) + CountOf(statuses, Quarantined) == |statuses|
  {
    if statuses != [] {
      CountsPartition(statuses[1..]);
    }
  }

  lemma {:induction false} CountZeroIff(statuses: seq<Status>, s: Status)
    ensures CountOf(statuses, s) == 0 <==> s !in statuses
  {
    if statuses != [] {
      CountZeroIff(statuses[1..], s);
      assert statuses == [statuses[0]] + statuses[1..];
    }
  }

  /** The batch status read off the counts: the whole batch is quarantined only if every reading is. */
  lemma BatchStatusFromCounts(statuses: seq<Status>)
    ensures ComputeBatchStatus(statuses) == Quarantined <==> CountOf(statuses, Quarantined) == |statuses|
    ensures ComputeBatchStatus(statuses) == Pass <==> statuses != [] && CountOf(statuses, Pass) == |statuses|
  {
    CountsPartition(statuses);
    CountZeroIff(statuses, Pass);
    CountZeroIff(statuses, Degraded);
    CountZeroIff(statuses, Quarantined);
    assert statuses != [] ==> statuses[0] in statuses;
    assert forall s | s in statuses :: s == Pass || s == Degraded || s == Quarantined;
  }

  /** The positions that hold a status. */
  function PositionsOf(statuses: seq<Status>, s: Status): set<int> {
    set k | 0 <= k < |statuses| && statuses[k] == s
  }

  lemma {:induction false} CountSnoc(statuses: seq<Status>, last: Status, s: Status)
    ensures CountOf(statuses + [last], s) == CountOf(statuses, s) + (if last == s then 1 else 0)
  {
    if statuses == [] {
      assert [] + [last] == [last] && [last][1..] == [];
    } else {
      CountSnoc(statuses[1..], last, s);
      assert (statuses + [last])[1..] == statuses[1..] + [last];
    }
  }

  lemma {:induction false} CountIsCardinality(statuses: seq<Status>, s: Status)
    ensures CountOf(statuses, s) == |PositionsOf(statuses, s)|
  {
    if statuses != [] {
      var n := |statuses| - 1;
      var front, last := statuses[..n], statuses[n];
      CountIsCardinality(front, s);
      CountSnoc(front, last, s);
      PositionsSnoc(front, last, s);
      hide PositionsOf, CountOf;
      assert statuses == front + [last];
    }
  }

  lemma PositionsSnoc(front: seq<Status>, last: Status, s: Status)
    ensures |PositionsOf(front + [last], s)| == |PositionsOf(front, s)| + (if last == s then 1 else 0)
  {
    var more, n := PositionsOf(front + [last], s), |front|;
    if last == s {
      assert more == PositionsOf(front, s) + {n};
    } else {
      assert more == PositionsOf(front, s);
    }
  }

  datatype BatchResult = BatchResult(
    overall: Status,
    issues: seq<QualityIssue>,
    totalRows: nat,
    passCount: nat,
    degradedCount: nat,
    quarantinedCount: nat)

  /** Every statement the batch result makes about its readings. */
  ghost predicate Describes(result: BatchResult, readings: seq<Reading>)
    reads readings
  {
    var s := Statuses(readings);
    && result.totalRows == |readings|
    && result.passCount == CountOf(s, Pass)
    && result.degradedCount == CountOf(s, Degraded)
    && result.quarantinedCount == CountOf(s, Quarantined)
    && result.passCount + result.degradedCount + result.quarantinedCount == result.totalRows
    && (result.overall == Quarantined <==> forall r | r in readings :: r.status == Quarantined)
    && (result.overall == Pass <==> readings != [] && forall r | r in readings :: r.status == Pass)
  }

  /** The issues the gate itself applies: sensor faults, then bounds, then schema drift. */
  function Detected(readings: seq<Reading>, faultIssues: seq<QualityIssue>,
                    columns: set<string>, schema: Schema, config: BoundsConfig): seq<QualityIssue>
  {
    faultIssues + (BoundsIssues(readings, config) + CheckSchemaDrift(columns, schema))
  }

  /** A reading outside its bounds, or any reading of a batch lacking a required column, ends up quarantined. */
  lemma DetectedQuarantines(readings: seq<Reading>, faultIssues: seq<QualityIssue>,
                            columns: set<string>, schema: Schema, config: BoundsConfig, r: Reading, before: Status)
    requires r in readings && (!Plausible(config, r) || RequiredMissing(columns, schema))
    ensures Applied(before, Detected(readings, faultIssues, columns, schema, config), r.circuit, r.ts) == Quarantined
  {
    var detected := Detected(readings, faultIssues, columns, schema, config);
    AppliedIsLeast(before, detected, r.circuit, r.ts, Degraded);
    if !Plausible(config, r) {
      assert BoundsIssue(r) in detected && IssueAffects(BoundsIssue(r), r.circuit, r.ts);
    } else {
      var drift := CheckSchemaDrift(columns, schema);
      assert drift != [];
      assert drift[0] in detected && IssueAffects(drift[0], r.circuit, r.ts);
    }
  }

  /** process_batch after normalisation: detect, apply, classify, count. */
  method ProcessBatch(readings: seq<Reading>, normIssues: seq<QualityIssue>, faultIssues: seq<QualityIssue>,
                      columns: set<string>, schema: Schema, config: BoundsConfig)
    returns (result: BatchResult)
    modifies readings
    ensures Describes(result, readings)
    ensures result.issues == normIssues + Detected(readings, faultIssues, columns, schema, config)
    ensures forall r | r in readings ::
              r.status == Applied(old(r.status), Detected(readings, faultIssues, columns, schema, config), r.circuit,
                                  r.ts)
    ensures forall r | r in readings && r.status != Quarantined :: Plausible(config, r)
    ensures RequiredMissing(columns, schema) ==> forall r | r in readings :: r.status == Quarantined
    ensures result.totalRows == |readings|
    ensures result.passCount == |set k | 0 <= k < |readings| && readings[k].status == Pass|
    ensures result.degradedCount == |set k | 0 <= k < |readings| && readings[k].status == Degraded|
    ensures result.quarantinedCount == |set k | 0 <= k < |readings| && readings[k].status == Quarantined|
    ensures result.overall == Quarantined <==> forall r | r in readings :: r.status == Quarantined
    ensures result.overall == Pass <==> readings != [] && forall r | r in readings :: r.status == Pass
  {
    var boundsIssues := CheckBounds(readings, config);
    var driftIssues := CheckSchemaDrift(columns, schema);
    var detected := faultIssues + (boundsIssues + driftIssues);
    ApplyIssues(readings, detected);
    forall r | r in readings && (!Plausible(config, r) || RequiredMissing(columns, schema))
      ensures r.status == Quarantined
    {
      DetectedQuarantines(readings, faultIssues, columns, schema, config, r, old(r.status));
    }
    result := Summarise(readings, normIssues + detected);
    CountIsNumber(readings, Pass);
    CountIsNumber(readings, Degraded);
    CountIsNumber(readings, Quarantined);
  }

  lemma CountIsNumber(readings: seq<Reading>, s: Status)
    ensures CountOf(Statuses(readings), s) == |set k | 0 <= k < |readings| && readings[k].status == s|
  {
    CountIsCardinality(Statuses(readings), s);
    assert PositionsOf(Statuses(readings), s) == set k | 0 <= k < |readings| && readings[k].status == s;
  }

  method Summarise(readings: seq<Reading>, issues: seq<QualityIssue>) returns (result: BatchResult)
    ensures Describes(result, readings) && result.issues == issues
  {
    var s := Statuses(readings);
    CountsPartition(s);
    assert forall r | r in readings :: r.status in s;
    result := BatchResult(ComputeBatchStatus(s), issues, |readings|,
                          CountOf(s, Pass), CountOf(s, Degraded), CountOf(s, Quarantined));
  }

  // ---------------------------------------------------------------- publishing

  datatype Event = DataArrived(status: Status, rows: nat)
  datatype Alert = QuarantinedBatch(total: nat, quarantined: nat) | DriftAlert(count: nat, status: Status)

  function DriftCount(issues: seq<QualityIssue>): nat {
    if issues == [] then 0
    else (if issues[0].issueType == SchemaDrift then 1 else 0) + DriftCount(issues[1..])
  }

  /** How many of the issues report schema drift, by position. */
  function DriftsAt(issues: seq<QualityIssue>): set<int> {
    set k | 0 <= k < |issues| && issues[k].issueType == SchemaDrift
  }

  lemma {:induction false} DriftSnoc(issues: seq<QualityIssue>, last: QualityIssue)
    ensures DriftCount(issues + [last]) == DriftCount(issues) + (if last.issueType == SchemaDrift then 1 else 0)
  {
    if issues == [] {
      assert [] + [last] == [last] && [last][1..] == [];
    } else {
      DriftSnoc(issues[1..], last);
      assert (issues + [last])[1..] == issues[1..] + [last];
    }
  }

  lemma {:induction false} DriftCountMeans(issues: seq<QualityIssue>)
    ensures DriftCount(issues) == |DriftsAt(issues)|
  {
    if issues != [] {
      var n := |issues| - 1;
      var front, last := issues[..n], issues[n];
      DriftCountMeans(front);
      DriftSnoc(front, last);
      DriftsSnoc(front, last);
      hide DriftsAt, DriftCount;
      assert issues == front + [last];
    }
  }

  lemma DriftsSnoc(front: seq<QualityIssue>, last: QualityIssue)
    ensures |DriftsAt(front + [last])| == |DriftsAt(front)| + (if last.issueType == SchemaDrift then 1 else 0)
  {
    var more, n := DriftsAt(front + [last]), |front|;
    if last.issueType == SchemaDrift {
      assert more == DriftsAt(front) + {n};
    } else {
      assert more == DriftsAt(front);
    }
  }

  class EventPublisher {
    const hasAlertStore: bool
    var published: seq<Event>
    var stored: seq<Alert>

    constructor (hasAlertStore: bool)
      ensures this.hasAlertStore == hasAlertStore && published == [] && stored == []
    {
      this.hasAlertStore := hasAlertStore;
      published, stored := [], [];
    }

    method PersistAlert(alert: Alert)
      modifies this`stored
      ensures stored == old(stored) + if hasAlertStore then [alert] else []
    {
      if hasAlertStore {
        stored := stored + [alert];
      }
    }

    /** Publish a usable batch, with a drift alert on the side; alert on a fully quarantined one. */
    method PublishOrAlert(result: BatchResult) returns (didPublish: bool, alert: Option<Alert>)
      modifies this
      ensures didPublish <==> result.overall != Quarantined
      ensures published == old(published) + if didPublish then [DataArrived(result.overall, result.totalRows)] else []
      ensures alert == if !didPublish then Some(QuarantinedBatch(result.totalRows, result.quarantinedCount))
                       else if DriftCount(result.issues) > 0
                            then Some(DriftAlert(DriftCount(result.issues), result.overall))
                       else None
      ensures stored == old(stored) + if alert.Some? && hasAlertStore then [alert.value] else []
    {
      if result.overall == Pass || result.overall == Degraded {
        published := published + [DataArrived(result.overall, result.totalRows)];
        var n := DriftCount(result.issues);
        alert := None;
        if n > 0 {
          alert := Some(DriftAlert(n, result.overall));
          PersistAlert(alert.value);
        }
        return true, alert;
      }
      alert := Some(QuarantinedBatch(result.totalRows, result.quarantinedCount));
      PersistAlert(alert.value);
      return false, alert;
    }

    /** Gate and publisher together: an event goes out exactly when some reading is usable. */
    method Ingest(readings: seq<Reading>, normIssues: seq<QualityIssue>, faultIssues: seq<QualityIssue>,
                  columns: set<string>, schema: Schema, config: BoundsConfig)
      returns (didPublish: bool)
      modifies this, readings
      ensures forall r | r in readings ::
                r.status == Applied(old(r.status), Detected(readings, faultIssues, columns, schema, config), r.circuit,
                                    r.ts)
      ensures didPublish <==> exists r :: r in readings && r.status != Quarantined
      ensures |published| == |old(published)| + if didPublish then 1 else 0
      ensures forall r | r in readings && r.status != Quarantined :: Plausible(config, r)
      ensures RequiredMissing(columns, schema) ==> !didPublish
    {
      var result := ProcessBatch(readings, normIssues, faultIssues, columns, schema, config);
      ghost var alert;
      didPublish, alert := PublishOrAlert(result);
    }
  }
}
