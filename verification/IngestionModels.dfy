/** Quality statuses and issues shared by the steps of the Data Quality Gate. */
module IngestionModels {
  import opened Wrappers

  type Id = nat

  /** Timestamps are UTC instants in seconds. */
  const HOUR := 3600

  /** A present value of a circuit's series. */
  datatype Sample = Sample(ts: int, kwh: real)

  function Values(s: seq<Sample>): (v: seq<real>)
    ensures |v| == |s| && forall i | 0 <= i < |s| :: v[i] == s[i].kwh
  {
    seq(|s|, i requires 0 <= i < |s| => s[i].kwh)
  }

  datatype Status = Pass | Degraded | Quarantined

  function Rank(s: Status): nat {
    match s
    case Pass => 0
    case Degraded => 1
    case Quarantined => 2
  }

  function WorseStatus(current: Status, next: Status): Status {
    if Rank(next) > Rank(current) then next else current
  }

  /** A status table read with "pass" as the default. */
  function StatusAt(statuses: map<int, Status>, ts: int): Status {
    if ts in statuses then statuses[ts] else Pass
  }

  datatype IssueType =
    | GapBeyondBound | Outlier | StuckAtValue | Dropout | ImplausibleValue | SchemaDrift
    | UnmappedCircuit | HighInterpolationRatio

  datatype QualityIssue = QualityIssue(
    issueType: IssueType,
    severity: Status,
    circuit: Option<Id>,
    tsStart: Option<int>,
    tsEnd: Option<int>)
}
