/**
 The building and tenant deletion cascade of migration 0003, run against the
 tables of migrations 0001-0003.

 Each DELETE is one statement: PostgreSQL checks the foreign keys when the
 statement ends, and an error in any statement undoes the whole function call.
 */
module DeletionCascade {
  import opened Wrappers

  /** UUIDs: only equality between them matters. */
  type Id = nat

  datatype Building = Building(tenant: Id, name: string)
  datatype Circuit = Circuit(tenant: Id, building: Id, parent: Option<Id>)
  datatype ReadingKey = ReadingKey(tenant: Id, circuit: Id, ts: int)
  datatype Finding = Finding(tenant: Id, building: Id, circuit: Option<Id>)
  datatype Label = Label(tenant: Id, finding: Id, confirmed: bool)
  datatype CalendarKey = CalendarKey(tenant: Id, building: Id, date: int)

  datatype AuditEntry =
    | BuildingDeleted(tenant: Id, building: Id, name: string)
    | BuildingCompleted(tenant: Id, building: Id, name: string,
                        labelsDeleted: nat, findingsDeleted: nat, readingsDeleted: nat, calendarDeleted: nat)
    | TenantInitiated(tenant: Id, name: string)
    | TenantCompleted(tenant: Id, name: string)
    | OtherEvent(tenant: Id, eventType: string)

  datatype Tables = Tables(
    tenants: map<Id, string>,
    buildings: map<Id, Building>,
    circuits: map<Id, Circuit>,
    readings: map<ReadingKey, Option<real>>,
    findings: map<Id, Finding>,
    labels: map<Id, Label>,
    calendar: map<CalendarKey, string>,
    audit: seq<AuditEntry>)

  /** The eight foreign keys of migration 0001, one predicate each. */
  predicate ForeignKeys(db: Tables) {
    && BuildingTenantKey(db.tenants, db.buildings)
    && CircuitKeys(db.tenants, db.buildings, db.circuits, db.readings)
    && LabelFindingKey(db.findings, db.labels)
    && CalendarTenantKey(db.tenants, db.calendar)
    && CalendarBuildingKey(db.buildings, db.calendar)
  }

  /** The four keys a DELETE on submeter_circuits is checked against. */
  predicate CircuitKeys(tenants: map<Id, string>, buildings: map<Id, Building>,
                        circuits: map<Id, Circuit>, readings: map<ReadingKey, Option<real>>)
  {
    && CircuitTenantKey(tenants, circuits)
    && CircuitBuildingKey(buildings, circuits)
    && CircuitParentKey(circuits)
    && ReadingCircuitKey(circuits, readings)
  }

  predicate BuildingTenantKey(tenants: map<Id, string>, buildings: map<Id, Building>) {
    forall b | b in buildings :: buildings[b].tenant in tenants
  }

  predicate CircuitTenantKey(tenants: map<Id, string>, circuits: map<Id, Circuit>) {
    forall c | c in circuits :: circuits[c].tenant in tenants
  }

  predicate CircuitBuildingKey(buildings: map<Id, Building>, circuits: map<Id, Circuit>) {
    forall c | c in circuits :: circuits[c].building in buildings
  }

  predicate CircuitParentKey(circuits: map<Id, Circuit>) {
    forall c {:trigger circuits[c].parent} | c in circuits ::
      circuits[c].parent.Some? ==> circuits[c].parent.value in circuits
  }

  predicate ReadingCircuitKey(circuits: map<Id, Circuit>, readings: map<ReadingKey, Option<real>>) {
    forall r | r in readings :: r.circuit in circuits
  }

  predicate LabelFindingKey(findings: map<Id, Finding>, labels: map<Id, Label>) {
    forall l | l in labels :: labels[l].finding in findings
  }

  predicate CalendarTenantKey(tenants: map<Id, string>, calendar: map<CalendarKey, string>) {
    forall k | k in calendar :: k.tenant in tenants
  }

  predicate CalendarBuildingKey(buildings: map<Id, Building>, calendar: map<CalendarKey, string>) {
    forall k | k in calendar :: k.building in buildings
  }

  // ---------------------------------------------------------------- sub-selects

  predicate OwnedBy(db: Tables, t: Id, b: Id) {
    b in db.buildings && db.buildings[b].tenant == t
  }

  function FindingsOf(findings: map<Id, Finding>, t: Id, b: Id): set<Id> {
    set f | f in findings && findings[f].building == b && findings[f].tenant == t
  }

  function LabelsOf(labels: map<Id, Label>, doomed: set<Id>): set<Id> {
    set l | l in labels && labels[l].finding in doomed
  }

  function ReadingsOf(readings: map<ReadingKey, Option<real>>, group: set<Id>, t: Id): set<ReadingKey> {
    set r | r in readings && r.circuit in group && r.tenant == t
  }

  function CalendarOf(calendar: map<CalendarKey, string>, t: Id, b: Id): set<CalendarKey> {
    set k | k in calendar && k.building == b && k.tenant == t
  }

  function CircuitsOf(cs: map<Id, Circuit>, t: Id, b: Id): set<Id> {
    set c | c in cs && cs[c].building == b && cs[c].tenant == t
  }

  /** The circuits one round of the peeling loop deletes: those no circuit of the building names as parent. */
  function Leaves(cs: map<Id, Circuit>, t: Id, b: Id): set<Id> {
    set c | c in CircuitsOf(cs, t, b) && !IsParentIn(cs, CircuitsOf(cs, t, b), c)
  }

  predicate IsParentIn(cs: map<Id, Circuit>, group: set<Id>, c: Id)
    requires group <= cs.Keys
  {
    exists d | d in group :: cs[d].parent == Some(c)
  }

  // ---------------------------------------------------------------- ancestry

  /** The circuit reached from c by following n parent references. */
  function Ancestor(cs: map<Id, Circuit>, c: Id, n: nat): Option<Id>
    decreases n
  {
    if n == 0 then Some(c)
    else if c in cs && cs[c].parent.Some? then Ancestor(cs, cs[c].parent.value, n - 1)
    else None
  }

  ghost predicate OwnAncestor(cs: map<Id, Circuit>, c: Id) {
    exists n: nat :: n >= 1 && Ancestor(cs, c, n) == Some(c)
  }

  lemma {:induction false} AncestorSplits(cs: map<Id, Circuit>, c: Id, m: nat, n: nat)
    requires Ancestor(cs, c, m).Some?
    ensures Ancestor(cs, c, m + n) == Ancestor(cs, Ancestor(cs, c, m).value, n)
    decreases m
  {
    if m > 0 {
      AncestorSplits(cs, cs[c].parent.value, m - 1, n);
    }
  }

  lemma {:induction false} AncestorPrefix(cs: map<Id, Circuit>, c: Id, m: nat, n: nat)
    requires m <= n && Ancestor(cs, c, n).Some?
    ensures Ancestor(cs, c, m).Some?
    decreases m
  {
    if m > 0 {
      AncestorPrefix(cs, cs[c].parent.value, m - 1, n - 1);
    }
  }

  /** A circuit on a cycle is the parent of another circuit on that cycle. */
  lemma CyclePredecessor(cs: map<Id, Circuit>, c: Id) returns (d: Id)
    requires OwnAncestor(cs, c)
    ensures d in cs && cs[d].parent == Some(c) && OwnAncestor(cs, d)
  {
    var n: nat :| n >= 1 && Ancestor(cs, c, n) == Some(c);
    AncestorPrefix(cs, c, n - 1, n);
    d := Ancestor(cs, c, n - 1).value;
    AncestorSplits(cs, c, n - 1, 1);
    assert Ancestor(cs, d, 1) == Some(c);
    assert Ancestor(cs, cs[d].parent.value, 0) == Some(c);
    assert Ancestor(cs, d, n) == Ancestor(cs, c, n - 1);
  }

  // ---------------------------------------------------------------- the leaf lemma

  lemma {:induction false} Pigeonhole(p: seq<Id>, s: set<Id>) returns (i: nat, j: nat)
    requires |p| > |s| && forall k | 0 <= k < |p| :: p[k] in s
    ensures i < j < |p| && p[i] == p[j]
    decreases |s|
  {
    var last := p[|p| - 1];
    if k :| 0 <= k < |p| - 1 && p[k] == last {
      i, j := k, |p| - 1;
    } else {
      assert |s - {last}| == |s| - 1;
      i, j := Pigeonhole(p[..|p| - 1], s - {last});
    }
  }

  /** A chain of n circuits of s, each the parent of the next. */
  lemma {:induction false} ChildChain(cs: map<Id, Circuit>, s: set<Id>, n: nat) returns (p: seq<Id>)
    requires s != {} && s <= cs.Keys
    requires forall c {:trigger IsParentIn(cs, s, c)} | c in s :: IsParentIn(cs, s, c)
    ensures |p| == n + 1 && forall k | 0 <= k <= n :: p[k] in s
    ensures forall k | 0 <= k < n :: cs[p[k + 1]].parent == Some(p[k])
  {
    if n == 0 {
      var c :| c in s;
      p := [c];
    } else {
      var q := ChildChain(cs, s, n - 1);
      assert IsParentIn(cs, s, q[n - 1]);
      var d :| d in s && cs[d].parent == Some(q[n - 1]);
      p := q + [d];
    }
  }

  lemma {:induction false} ChainAncestor(cs: map<Id, Circuit>, p: seq<Id>, i: nat, j: nat)
    requires i <= j < |p| && forall k | 0 <= k < |p| :: p[k] in cs
    requires forall k | 0 <= k < |p| - 1 :: cs[p[k + 1]].parent == Some(p[k])
    ensures Ancestor(cs, p[j], j - i) == Some(p[i])
    decreases j
  {
    if i < j {
      ChainAncestor(cs, p, i, j - 1);
      assert cs[p[j - 1 + 1]].parent == Some(p[j - 1]);
    }
  }

  /** A finite non-empty set of circuits in which nobody is childless contains a cycle. */
  lemma NoLeafMeansCycle(cs: map<Id, Circuit>, s: set<Id>) returns (c: Id)
    requires s != {} && s <= cs.Keys
    requires forall d {:trigger IsParentIn(cs, s, d)} | d in s :: IsParentIn(cs, s, d)
    ensures c in s && OwnAncestor(cs, c)
  {
    var p := ChildChain(cs, s, |s|);
    var i, j := Pigeonhole(p, s);
    ChainAncestor(cs, p, i, j);
    c := p[i];
    assert Ancestor(cs, c, j - i) == Some(c);
  }

  // ---------------------------------------------------------------- specification

  /** What a caller must be able to say of a building for its deletion to go through. */
  ghost predicate Deletable(db: Tables, t: Id, b: Id) {
    && OwnedBy(db, t, b)
    && (forall c | c in db.circuits :: db.circuits[c].building == b ==> db.circuits[c].tenant == t)
    && (forall k | k in db.calendar :: k.building == b ==> k.tenant == t)
    && NoOutsideReference(db, CircuitsOf(db.circuits, t, b), t)
    && (forall c | c in CircuitsOf(db.circuits, t, b) :: !OwnAncestor(db.circuits, c))
  }

  /** Only circuits of the group, and readings of the tenant, point into the group. */
  ghost predicate NoOutsideReference(db: Tables, group: set<Id>, t: Id) {
    && (forall c {:trigger db.circuits[c].parent} | c in db.circuits && c !in group ::
          db.circuits[c].parent.Some? ==> db.circuits[c].parent.value !in group)
    && (forall r | r in db.readings :: r.circuit in group ==> r.tenant == t)
  }

  function LabelsDoomed(db: Tables, t: Id, b: Id): set<Id> {
    LabelsOf(db.labels, FindingsOf(db.findings, t, b))
  }

  function ReadingsDoomed(db: Tables, t: Id, b: Id): set<ReadingKey> {
    ReadingsOf(db.readings, CircuitsOf(db.circuits, t, b), t)
  }

  /** The closing audit entry reports how many rows of each kind the building had. */
  function Completion(db: Tables, t: Id, b: Id): AuditEntry
    requires b in db.buildings
  {
    BuildingCompleted(t, b, db.buildings[b].name, |LabelsDoomed(db, t, b)|, |FindingsOf(db.findings, t, b)|,
                      |ReadingsDoomed(db, t, b)|, |CalendarOf(db.calendar, t, b)|)
  }

  /** The state after a building's deletion, described in one step. */
  function Purged(db: Tables, t: Id, b: Id): Tables
    requires b in db.buildings
  {
    var name := db.buildings[b].name;
    Tables(
      db.tenants,
      db.buildings - {b},
      db.circuits - CircuitsOf(db.circuits, t, b),
      db.readings - ReadingsDoomed(db, t, b),
      db.findings - FindingsOf(db.findings, t, b),
      db.labels - LabelsDoomed(db, t, b),
      db.calendar - CalendarOf(db.calendar, t, b),
      db.audit + [BuildingDeleted(t, b, name)] + [Completion(db, t, b)])
  }

  /**
   No building, circuit, reading or calendar row of the building is left and none of another building goes.
   Findings go by building and tenant, and a label goes with its finding, whoever owns the label.
   */
  lemma PurgedIsExact(db: Tables, t: Id, b: Id)
    requires ForeignKeys(db) && Deletable(db, t, b)
    ensures var after := Purged(db, t, b);
            && after.tenants == db.tenants
            && (forall x :: x in after.buildings <==> x in db.buildings && x != b)
            && (forall c :: c in after.circuits <==> c in db.circuits && db.circuits[c].building != b)
            && (forall r :: r in after.readings <==>
                            r in db.readings && db.circuits[r.circuit].building != b)
            && (forall f :: f in after.findings <==>
                            f in db.findings && !(db.findings[f].building == b && db.findings[f].tenant == t))
            && (forall l :: l in after.labels <==> l in db.labels && db.labels[l].finding in after.findings)
            && (forall k :: k in after.calendar <==> k in db.calendar && k.building != b)
            && (forall x | x in after.buildings :: after.buildings[x] == db.buildings[x])
            && (forall c | c in after.circuits :: after.circuits[c] == db.circuits[c])
            && (forall r | r in after.readings :: after.readings[r] == db.readings[r])
            && (forall f | f in after.findings :: after.findings[f] == db.findings[f])
            && (forall l | l in after.labels :: after.labels[l] == db.labels[l])
            && (forall k | k in after.calendar :: after.calendar[k] == db.calendar[k])
            && db.audit <= after.audit
  {
  }

  /** Every label of another tenant survives exactly when the doomed findings carry labels of this tenant only. */
  lemma ForeignLabelsExactly(db: Tables, t: Id, b: Id)
    requires ForeignKeys(db) && b in db.buildings
    ensures (forall l | l in db.labels && db.labels[l].tenant != t :: l in Purged(db, t, b).labels)
            <==> (forall l | l in db.labels &&
                  db.labels[l].finding in FindingsOf(db.findings, t, b) :: db.labels[l].tenant == t)
  {
    assert forall l | l in db.labels ::
        l in Purged(db, t, b).labels <==> db.labels[l].finding !in FindingsOf(db.findings, t, b);
  }

  /** No finding that names the building is left exactly when all of them were this tenant's. */
  lemma NamedFindingsExactly(db: Tables, t: Id, b: Id)
    requires b in db.buildings
    ensures (forall f | f in Purged(db, t, b).findings :: Purged(db, t, b).findings[f].building != b)
            <==> (forall f | f in db.findings && db.findings[f].building == b :: db.findings[f].tenant == t)
  {
    var after := Purged(db, t, b);
    assert forall f | f in db.findings :: f in after.findings <==> f !in FindingsOf(db.findings, t, b);
  }

  // ---------------------------------------------------------------- what the audit log reports

  lemma {:induction false} MapMinus<K, V>(m: map<K, V>, gone: set<K>)
    requires gone <= m.Keys
    ensures |m - gone| == |m| - |gone|
  {
    assert (m - gone).Keys == m.Keys - gone;
    assert |(m - gone).Keys| == |m.Keys| - |gone|;
    assert |m| == |m.Keys| && |m - gone| == |(m - gone).Keys|;
  }

  /** Two entries: the building's name is recorded first, then for each table the number of rows it has lost. */
  ghost predicate LossReported(before: Tables, after: Tables, t: Id, b: Id, name: string) {
    var n := |before.audit|;
    && |after.audit| == n + 2 && after.audit[..n] == before.audit
    && after.audit[n] == BuildingDeleted(t, b, name)
    && CountsLoss(before, after, after.audit[n + 1])
    && after.audit[n + 1].tenant == t && after.audit[n + 1].building == b && after.audit[n + 1].name == name
  }

  ghost predicate CountsLoss(before: Tables, after: Tables, e: AuditEntry) {
    && e.BuildingCompleted?
    && e.labelsDeleted == |before.labels| - |after.labels|
    && e.findingsDeleted == |before.findings| - |after.findings|
    && e.readingsDeleted == |before.readings| - |after.readings|
    && e.calendarDeleted == |before.calendar| - |after.calendar|
  }

  /** The closing entry counts exactly the rows that are gone, table by table. */
  lemma PurgedReportsLoss(db: Tables, t: Id, b: Id)
    requires b in db.buildings
    ensures LossReported(db, Purged(db, t, b), t, b, db.buildings[b].name)
  {
    MapMinus(db.labels, LabelsDoomed(db, t, b));
    MapMinus(db.findings, FindingsOf(db.findings, t, b));
    MapMinus(db.readings, ReadingsDoomed(db, t, b));
    MapMinus(db.calendar, CalendarOf(db.calendar, t, b));
  }

  lemma PurgedKeepsKeys(db: Tables, t: Id, b: Id)
    requires ForeignKeys(db) && Deletable(db, t, b)
    ensures ForeignKeys(Purged(db, t, b))
  {
    var after := Purged(db, t, b);
    var group := CircuitsOf(db.circuits, t, b);
    forall c | c in after.circuits && after.circuits[c].parent.Some?
      ensures after.circuits[c].parent.value in after.circuits
    {
      assert c in db.circuits && c !in group;
    }
  }

  datatype Outcome = Done | NotFound | ForeignKeyViolation

  class Database {
    var tenants: map<Id, string>
    var buildings: map<Id, Building>
    var circuits: map<Id, Circuit>
    var readings: map<ReadingKey, Option<real>>
    var findings: map<Id, Finding>
    var labels: map<Id, Label>
    var calendar: map<CalendarKey, string>
    var audit: seq<AuditEntry>

    function Rows(): Tables
      reads this
    {
      Tables(tenants, buildings, circuits, readings, findings, labels, calendar, audit)
    }

    /** Undo a failed call: the transaction's changes are discarded. */
    method Rollback(saved: Tables)
      modifies this
      ensures Rows() == saved
    {
      tenants, buildings, circuits := saved.tenants, saved.buildings, saved.circuits;
      readings, findings, labels := saved.readings, saved.findings, saved.labels;
      calendar, audit := saved.calendar, saved.audit;
    }

    /** The self-referencing circuit tree, peeled leaf by leaf until a round deletes no row. */
    method PeelCircuits(t: Id, b: Id) returns (ok: bool)
      requires ForeignKeys(Rows())
      modifies this`circuits
      ensures Peeling(old(Rows()), circuits, t, b)
      ensures ok ==> Leaves(circuits, t, b) == {}
      ensures !ok ==> OutsideReference(old(Rows()), t, b)
    {
      ghost var start := Rows();
      while true
        invariant Peeling(start, circuits, t, b)
        decreases |circuits|
      {
        var leaves := Leaves(circuits, t, b);
        if !CircuitKeys(tenants, buildings, circuits - leaves, readings) {
          LeafDeletionFails(start, circuits, t, b);
          return false;
        }
        PeelingContinues(start, circuits, t, b);
        if leaves == {} {
          return true;
        }
        circuits := circuits - leaves;
      }
    }

    /** The initial audit entry and the four DELETEs that precede the loop, with their row counts. */
    method DeleteDependents(t: Id, b: Id)
      returns (nLabels: nat, nFindings: nat, nReadings: nat, nCalendar: nat)
      requires ForeignKeys(Rows()) && b in buildings
      modifies this
      ensures Rows() == Cleared(old(Rows()), t, b)
      ensures Completion(old(Rows()), t, b)
              == BuildingCompleted(t, b, buildings[b].name, nLabels, nFindings, nReadings, nCalendar)
      ensures nLabels == |old(labels)| - |labels| && nFindings == |old(findings)| - |findings|
      ensures nReadings == |old(readings)| - |readings| && nCalendar == |old(calendar)| - |calendar|
    {
      audit := audit + [BuildingDeleted(t, b, buildings[b].name)];

      var doomedLabels := LabelsOf(labels, FindingsOf(findings, t, b));
      labels := labels - doomedLabels;
      var doomedFindings := FindingsOf(findings, t, b);
      findings := findings - doomedFindings;
      var doomedReadings := ReadingsOf(readings, CircuitsOf(circuits, t, b), t);
      readings := readings - doomedReadings;
      var doomedCalendar := CalendarOf(calendar, t, b);
      calendar := calendar - doomedCalendar;

      nLabels, nFindings := |doomedLabels|, |doomedFindings|;
      nReadings, nCalendar := |doomedReadings|, |doomedCalendar|;
      MapMinus(old(labels), doomedLabels);
      MapMinus(old(findings), doomedFindings);
      MapMinus(old(readings), doomedReadings);
      MapMinus(old(calendar), doomedCalendar);
    }

    /** The last two statements: the building row and the closing audit entry. */
    method DeleteBuildingRow(t: Id, b: Id, closing: AuditEntry, ghost saved: Tables) returns (ok: bool)
      requires ForeignKeys(saved) && OwnedBy(saved, t, b) && closing == Completion(saved, t, b)
      requires Rows() == Cleared(saved, t, b).(circuits := circuits)
      requires Peeling(Cleared(saved, t, b), circuits, t, b) && Leaves(circuits, t, b) == {}
      modifies this`buildings, this`audit
      ensures ok <==> Deletable(saved, t, b)
      ensures ok ==> Rows() == Purged(saved, t, b) && ForeignKeys(Rows())
      ensures ok ==> LossReported(saved, Rows(), t, b, saved.buildings[b].name)
    {
      hide ForeignKeys, Peeling, Leaves, Deletable, Purged, Completion, LossReported;
      if !ForeignKeys(Rows().(buildings := buildings - {b})) {
        LeftoverMeansNotDeletable(saved, circuits, t, b);
        return false;
      }
      BuildingRowGoes(saved, circuits, t, b);
      buildings := buildings - {b};
      audit := audit + [closing];
      return true;
    }

    /** delete_building_data: succeeds exactly on deletable buildings, and changes nothing otherwise. */
    method DeleteBuildingData(t: Id, b: Id) returns (outcome: Outcome)
      requires ForeignKeys(Rows())
      modifies this
      ensures ForeignKeys(Rows())
      ensures outcome == NotFound <==> !OwnedBy(old(Rows()), t, b)
      ensures outcome == Done <==> Deletable(old(Rows()), t, b)
      ensures outcome == Done ==> Rows() == Purged(old(Rows()), t, b)
      ensures outcome == Done ==> LossReported(old(Rows()), Rows(), t, b, old(buildings)[b].name)
      ensures outcome != Done ==> Rows() == old(Rows())
    {
      var saved := Rows();
      if b !in buildings || buildings[b].tenant != t {
        return NotFound;
      }
      var name := buildings[b].name;
      var nLabels, nFindings, nReadings, nCalendar := DeleteDependents(t, b);
      ClearingKeepsKeys(saved, t, b);

      var peeled := PeelCircuits(t, b);
      if !peeled {
        OutsideReferenceMeansNotDeletable(saved, t, b);
        Rollback(saved);
        return ForeignKeyViolation;
      }
      var removed := DeleteBuildingRow(t, b, BuildingCompleted(t, b, name, nLabels, nFindings, nReadings, nCalendar),
                                       saved);
      if !removed {
        Rollback(saved);
        return ForeignKeyViolation;
      }
      return Done;
    }

    /** The last two statements: the tenant row and the closing audit entry. */
    method DeleteTenantRow(t: Id, name: string) returns (ok: bool)
      requires ForeignKeys(Rows())
      modifies this`tenants, this`audit
      ensures ok == ForeignKeys(old(Rows()).(tenants := old(tenants) - {t}))
      ensures ok <==> TenantUnreferenced(old(Rows()), t)
      ensures ok ==> tenants == old(tenants) - {t} && audit == old(audit) + [TenantCompleted(t, name)]
      ensures !ok ==> tenants == old(tenants) && audit == old(audit)
      ensures ForeignKeys(Rows())
    {
      ok := ForeignKeys(Rows().(tenants := tenants - {t}));
      if ok {
        tenants := tenants - {t};
        audit := audit + [TenantCompleted(t, name)];
      }
    }

    /** One row of the cursor. */
    method DeleteNext(t: Id, b: Id, ghost saved: Tables, ghost order: seq<Id>) returns (ok: bool)
      requires ForeignKeys(saved) && t in saved.tenants && OwnedBy(saved, t, b) && b !in order
      requires Enumerates(order, set x | x in order) && forall x | x in order :: OwnedBy(saved, t, x)
      requires ForeignKeys(Rows()) && Rows() == PurgedAll(saved, t, order) && EachDeletable(saved, t, order)
      modifies this
      ensures ok <==> Deletable(PurgedAll(saved, t, order), t, b)
      ensures TenantScoped(saved, t) ==> ok
      ensures ok ==> ForeignKeys(Rows()) && Rows() == PurgedAll(saved, t, order + [b])
      ensures ok ==> EachDeletable(saved, t, order + [b])
    {
      OwnedUntilReached(saved, t, order, b);
      if TenantScoped(saved, t) {
        ScopedThroughout(saved, t, order);
        ScopedMeansDeletable(PurgedAll(saved, t, order), t, b);
      }
      var outcome := DeleteBuildingData(t, b);
      ok := outcome == Done;
      if ok {
        PurgedAllSnoc(saved, t, order, b);
        OneMoreDeletable(saved, t, order, b);
      }
    }

    /** The end of the call, once the cursor is exhausted. */
    method CloseTenant(t: Id, name: string, ghost saved: Tables, ghost order: seq<Id>) returns (ok: bool)
      requires ForeignKeys(saved) && t in saved.tenants && name == saved.tenants[t]
      requires Enumerates(order, BuildingsOf(saved.buildings, t))
      requires ForeignKeys(Rows()) && Rows() == PurgedAll(saved, t, order)
      modifies this`tenants, this`audit
      ensures ok <==> TenantUnreferenced(PurgedAll(saved, t, order), t)
      ensures TenantScoped(saved, t) ==> ok
      ensures ok ==> ForeignKeys(Rows()) && Rows() == TenantPurged(saved, t, order)
      ensures ok ==> TenantLossReported(saved, Rows(), t, order, name)
    {
      if TenantScoped(saved, t) {
        ScopedUnreferenced(saved, t, order);
      }
      AllOwnedGone(saved, t, order);
      ok := DeleteTenantRow(t, name);
      TenantPurgedReportsLoss(saved, t, order);
    }

    /**
     delete_tenant_data: one building deletion per row of the cursor, then the tenant row.
     The cursor's order is the database's choice; it is reported as a ghost result. The call completes exactly when
     every building is deletable at its turn in that order and nothing refers to the tenant afterwards.
     */
    method DeleteTenantData(t: Id) returns (outcome: Outcome, ghost order: seq<Id>)
      requires ForeignKeys(Rows())
      modifies this
      ensures ForeignKeys(Rows())
      ensures outcome == NotFound <==> t !in old(tenants)
      ensures t in old(tenants) ==> Enumerates(order, BuildingsOf(old(buildings), t))
      ensures t in old(tenants) ==>
                (outcome == Done <==> EachDeletable(old(Rows()), t, order)
                                      && TenantUnreferenced(PurgedAll(old(Rows()), t, order), t))
      ensures t in old(tenants) && TenantScoped(old(Rows()), t) ==> outcome == Done
      ensures outcome == Done ==> Rows() == TenantPurged(old(Rows()), t, order)
      ensures outcome == Done ==> TenantLossReported(old(Rows()), Rows(), t, order, old(tenants)[t])
      ensures outcome != Done ==> Rows() == old(Rows())
    {
      var saved := Rows();
      order := [];
      if t !in tenants {
        return NotFound, [];
      }
      audit := audit + [TenantInitiated(t, tenants[t])];
      CursorOpens(saved, t, BuildingsOf(saved.buildings, t));
      assert Rows() == PurgedAll(saved, t, order);
      hide *;
      var todo := BuildingsOf(buildings, t);
      while todo != {}
        invariant ForeignKeys(Rows())
        invariant todo <= BuildingsOf(saved.buildings, t)
        invariant Enumerates(order, BuildingsOf(saved.buildings, t) - todo)
        invariant Rows() == PurgedAll(saved, t, order)
        invariant EachDeletable(saved, t, order)
        decreases |todo|
      {
        var b :| b in todo;
        NextInTurn(saved, t, order, todo, b);
        var deleted := DeleteNext(t, b, saved, order);
        if !deleted {
          Rollback(saved);
          ghost var full := CursorBeyond(saved, t, order, BuildingsOf(saved.buildings, t), todo, b);
          return ForeignKeyViolation, full;
        }
        EnumeratesOneMore(order, BuildingsOf(saved.buildings, t), todo, b);
        order := order + [b];
        todo := todo - {b};
      }
      assert BuildingsOf(saved.buildings, t) - todo == BuildingsOf(saved.buildings, t);
      var removed := CloseTenant(t, saved.tenants[t], saved, order);
      if !removed {
        Rollback(saved);
        return ForeignKeyViolation, order;
      }
      return Done, order;
    }
  }

  // ---------------------------------------------------------------- tenant deletion

  function BuildingsOf(buildings: map<Id, Building>, t: Id): set<Id> {
    set b | b in buildings && buildings[b].tenant == t
  }

  ghost predicate Enumerates(order: seq<Id>, s: set<Id>) {
    && (forall b :: b in order <==> b in s)
    && (forall i, j | 0 <= i < j < |order| :: order[i] != order[j])
  }

  /** No building, circuit or calendar row names the tenant. */
  ghost predicate TenantUnreferenced(db: Tables, t: Id) {
    && (forall b | b in db.buildings :: db.buildings[b].tenant != t)
    && (forall c | c in db.circuits :: db.circuits[c].tenant != t)
    && (forall k | k in db.calendar :: k.tenant != t)
  }

  /** Every building of the order is deletable in the state its turn finds. */
  ghost predicate EachDeletable(db: Tables, t: Id, order: seq<Id>)
    requires t in db.tenants
  {
    forall i | 0 <= i < |order| :: Deletable(PurgedAll(db, t, order[..i]), t, order[i])
  }

  lemma OneMoreDeletable(db: Tables, t: Id, order: seq<Id>, b: Id)
    requires t in db.tenants && EachDeletable(db, t, order) && Deletable(PurgedAll(db, t, order), t, b)
    ensures EachDeletable(db, t, order + [b])
  {
    forall i | 0 <= i < |order| + 1 ensures Deletable(PurgedAll(db, t, (order + [b])[..i]), t, (order + [b])[i]) {
      assert (order + [b])[..i] == order[..i];
    }
  }

  lemma CursorOpens(db: Tables, t: Id, all: set<Id>)
    requires ForeignKeys(db) && t in db.tenants
    ensures PurgedAll(db, t, []) == db.(audit := db.audit + [TenantInitiated(t, db.tenants[t])])
    ensures EachDeletable(db, t, []) && ForeignKeys(PurgedAll(db, t, [])) && Enumerates([], all - all)
  {
  }

  /** The next building of the cursor is the tenant's and has not had its turn. */
  lemma NextInTurn(db: Tables, t: Id, order: seq<Id>, todo: set<Id>, b: Id)
    requires Enumerates(order, BuildingsOf(db.buildings, t) - todo)
    requires todo <= BuildingsOf(db.buildings, t) && b in todo
    ensures OwnedBy(db, t, b) && b !in order && Enumerates(order, set x | x in order)
    ensures forall x | x in order :: OwnedBy(db, t, x)
  {
  }

  /** The rest of a cursor that stops at a building that cannot be deleted, in some order. */
  lemma CursorBeyond(db: Tables, t: Id, order: seq<Id>, all: set<Id>, todo: set<Id>, b: Id) returns (full: seq<Id>)
    requires t in db.tenants && todo <= all && b in todo && Enumerates(order, all - todo)
    requires !Deletable(PurgedAll(db, t, order), t, b)
    ensures Enumerates(full, all) && !EachDeletable(db, t, full)
  {
    EnumeratesOneMore(order, all, todo, b);
    full := EnumerateRest(order + [b], all, todo - {b});
    var i := |order|;
    assert full[..i] == (order + [b])[..i] == order;
    assert full[i] == (order + [b])[i] == b;
  }

  lemma EnumerateRest(order: seq<Id>, all: set<Id>, todo: set<Id>) returns (full: seq<Id>)
    requires todo <= all && Enumerates(order, all - todo)
    ensures Enumerates(full, all) && order <= full
    decreases |todo|
  {
    if todo == {} {
      full := order;
    } else {
      var b :| b in todo;
      EnumeratesOneMore(order, all, todo, b);
      full := EnumerateRest(order + [b], all, todo - {b});
    }
  }

  lemma EnumeratesOneMore(order: seq<Id>, all: set<Id>, todo: set<Id>, b: Id)
    requires todo <= all && b in todo && Enumerates(order, all - todo)
    ensures Enumerates(order + [b], all - (todo - {b}))
  {
    forall x ensures x in order + [b] <==> x in all - (todo - {b}) {
      assert x in order + [b] <==> x in order || x == b;
    }
  }

  /**
   tenant_id agrees along every key of the tenant, parents stay in the building, and no circuit is its own
   ancestor.
   */
  ghost predicate TenantScoped(db: Tables, t: Id)
    requires ForeignKeys(db)
  {
    && (forall c | c in db.circuits ::
          db.circuits[c].tenant == t <==> db.buildings[db.circuits[c].building].tenant == t)
    && (forall k | k in db.calendar :: k.tenant == t <==> db.buildings[k.building].tenant == t)
    && (forall r | r in db.readings :: r.tenant == t <==> db.circuits[r.circuit].tenant == t)
    && (forall c {:trigger db.circuits[c].parent} | c in db.circuits && db.circuits[c].parent.Some? ::
          ParentInside(db.circuits, db.circuits[c], t))
    && (forall c | c in db.circuits && db.circuits[c].tenant == t :: !OwnAncestor(db.circuits, c))
  }

  predicate ParentInside(cs: map<Id, Circuit>, row: Circuit, t: Id)
    requires row.parent.Some? && row.parent.value in cs
  {
    var up := cs[row.parent.value];
    row.tenant == t || up.tenant == t ==> up.tenant == row.tenant && up.building == row.building
  }

  /** The state after the buildings of the sequence were deleted one after the other. */
  function PurgedAll(db: Tables, t: Id, order: seq<Id>): Tables
    requires t in db.tenants
  {
    if order == [] then db.(audit := db.audit + [TenantInitiated(t, db.tenants[t])])
    else
      var before := PurgedAll(db, t, order[..|order| - 1]);
      var b := order[|order| - 1];
      if b in before.buildings then Purged(before, t, b) else before
  }

  lemma AllOwnedGone(db: Tables, t: Id, order: seq<Id>)
    requires ForeignKeys(db) && t in db.tenants
    requires Enumerates(order, BuildingsOf(db.buildings, t))
    ensures PurgedAll(db, t, order).tenants == db.tenants
    ensures BuildingsOf(PurgedAll(db, t, order).buildings, t) == {}
  {
    PurgedAllRows(db, t, order);
  }

  function TenantPurged(db: Tables, t: Id, order: seq<Id>): Tables
    requires t in db.tenants
  {
    var emptied := PurgedAll(db, t, order);
    emptied.(tenants := db.tenants - {t}, audit := emptied.audit + [TenantCompleted(t, db.tenants[t])])
  }

  predicate Gone(t: Id, order: seq<Id>, tenant: Id, building: Id) {
    tenant == t && building in order
  }

  /** Exactly the rows that hang off no building of the sequence are left. */
  ghost predicate Remaining(db: Tables, after: Tables, t: Id, order: seq<Id>) {
    && after.tenants == db.tenants
    && (forall b :: b in after.buildings <==> b in db.buildings && b !in order)
    && RemainingCircuits(db.circuits, after.circuits, t, order)
    && (forall r :: r in after.readings <==> r in db.readings && (r.tenant == t ==> r.circuit in after.circuits))
    && RemainingFindings(db.findings, after.findings, t, order)
    && (forall l :: l in after.labels <==> l in db.labels && db.labels[l].finding in after.findings)
    && RemainingCalendar(db.calendar, after.calendar, t, order)
  }

  ghost predicate RemainingCircuits(all: map<Id, Circuit>, left: map<Id, Circuit>, t: Id, order: seq<Id>) {
    forall c :: c in left <==> c in all && !Gone(t, order, all[c].tenant, all[c].building)
  }

  ghost predicate RemainingFindings(all: map<Id, Finding>, left: map<Id, Finding>, t: Id, order: seq<Id>) {
    forall f :: f in left <==> f in all && !Gone(t, order, all[f].tenant, all[f].building)
  }

  ghost predicate RemainingCalendar(all: map<CalendarKey, string>, left: map<CalendarKey, string>, t: Id,
                                    order: seq<Id>)
  {
    forall k :: k in left <==> k in all && !Gone(t, order, k.tenant, k.building)
  }

  lemma {:induction false} PurgedAllRows(db: Tables, t: Id, order: seq<Id>)
    requires ForeignKeys(db) && t in db.tenants
    requires forall i, j | 0 <= i < j < |order| :: order[i] != order[j]
    requires forall b | b in order :: OwnedBy(db, t, b)
    ensures Remaining(db, PurgedAll(db, t, order), t, order)
    ensures SameRows(db, PurgedAll(db, t, order))
    ensures db.audit <= PurgedAll(db, t, order).audit
    ensures |PurgedAll(db, t, order).audit| == |db.audit| + 1 + 2 * |order|
  {
    if order != [] {
      var front, b := order[..|order| - 1], order[|order| - 1];
      assert order == front + [b];
      assert b !in front;
      PurgedAllRows(db, t, front);
      PurgedOneMore(db, PurgedAll(db, t, front), t, front, b);
      PurgedSameRows(db, PurgedAll(db, t, front), t, b);
    }
  }

  lemma PurgedOneMore(db: Tables, before: Tables, t: Id, order: seq<Id>, b: Id)
    requires ForeignKeys(db) && OwnedBy(db, t, b) && b !in order
    requires Remaining(db, before, t, order) && SameRows(db, before)
    ensures b in before.buildings
    ensures Remaining(db, Purged(before, t, b), t, order + [b])
  {
    var after := Purged(before, t, b);
    assert forall x :: x in order + [b] <==> x in order || x == b;
    CircuitsOneMore(db.circuits, before.circuits, t, order, b);
    FindingsOneMore(db.findings, before.findings, t, order, b);
    forall r ensures r in after.readings <==> r in db.readings && (r.tenant == t ==> r.circuit in after.circuits) {
    }
    CalendarOneMore(db.calendar, before.calendar, t, order, b);
  }

  lemma CalendarOneMore(all: map<CalendarKey, string>, left: map<CalendarKey, string>, t: Id, order: seq<Id>, b: Id)
    requires RemainingCalendar(all, left, t, order)
    ensures RemainingCalendar(all, left - CalendarOf(left, t, b), t, order + [b])
  {
    assert forall x :: x in order + [b] <==> x in order || x == b;
  }

  lemma PurgedSameRows(db: Tables, before: Tables, t: Id, b: Id)
    requires SameRows(db, before) && b in before.buildings
    ensures SameRows(db, Purged(before, t, b))
  {
  }

  lemma CircuitsOneMore(all: map<Id, Circuit>, left: map<Id, Circuit>, t: Id, order: seq<Id>, b: Id)
    requires RemainingCircuits(all, left, t, order) && forall c | c in left :: left[c] == all[c]
    ensures RemainingCircuits(all, left - CircuitsOf(left, t, b), t, order + [b])
  {
    assert forall x :: x in order + [b] <==> x in order || x == b;
  }

  lemma FindingsOneMore(all: map<Id, Finding>, left: map<Id, Finding>, t: Id, order: seq<Id>, b: Id)
    requires RemainingFindings(all, left, t, order) && forall f | f in left :: left[f] == all[f]
    ensures RemainingFindings(all, left - FindingsOf(left, t, b), t, order + [b])
  {
    assert forall x :: x in order + [b] <==> x in order || x == b;
  }

  /** Every row still present is the row it was. */
  ghost predicate SameRows(db: Tables, after: Tables) {
    && (forall b | b in after.buildings :: b in db.buildings && after.buildings[b] == db.buildings[b])
    && (forall c | c in after.circuits :: c in db.circuits && after.circuits[c] == db.circuits[c])
    && (forall r | r in after.readings :: r in db.readings && after.readings[r] == db.readings[r])
    && (forall f | f in after.findings :: f in db.findings && after.findings[f] == db.findings[f])
    && (forall l | l in after.labels :: l in db.labels && after.labels[l] == db.labels[l])
    && (forall k | k in after.calendar :: k in db.calendar && after.calendar[k] == db.calendar[k])
  }

  /**
   A completed tenant deletion leaves no tenant, building, circuit, reading or calendar row of the tenant and every
   such row of every other tenant. Findings go if they name a building of the tenant, labels with their finding.
   */
  lemma TenantPurgedIsExact(db: Tables, t: Id, order: seq<Id>)
    requires ForeignKeys(db) && t in db.tenants && TenantScoped(db, t)
    requires Enumerates(order, BuildingsOf(db.buildings, t))
    ensures var after := TenantPurged(db, t, order);
            && SameRows(db, after) && db.audit <= after.audit
            && after.tenants == db.tenants - {t}
            && (forall b :: b in after.buildings <==> b in db.buildings && db.buildings[b].tenant != t)
            && (forall c :: c in after.circuits <==> c in db.circuits && db.circuits[c].tenant != t)
            && (forall r :: r in after.readings <==> r in db.readings && r.tenant != t)
            && (forall k :: k in after.calendar <==> k in db.calendar && k.tenant != t)
            && (forall f :: f in after.findings <==> f in db.findings && !FindingDoomed(db, t, f))
            && (forall l :: l in after.labels <==> l in db.labels && !FindingDoomed(db, t, db.labels[l].finding))
  {
    PurgedAllRows(db, t, order);
    FindingsGone(db, t, order);
  }

  // ---------------------------------------------------------------- what the tenant's audit trail reports

  datatype Counts = Counts(labels: int, findings: int, readings: int, calendar: int)

  /** The totals over all closing entries of a stretch of the log. */
  function Reported(log: seq<AuditEntry>): Counts {
    if log == [] then Counts(0, 0, 0, 0)
    else
      var sum, e := Reported(log[..|log| - 1]), log[|log| - 1];
      if !e.BuildingCompleted? then sum
      else Counts(sum.labels + e.labelsDeleted, sum.findings + e.findingsDeleted,
                  sum.readings + e.readingsDeleted, sum.calendar + e.calendarDeleted)
  }

  /** The trail of the buildings deleted so far: two entries each, in order, that together report every row lost. */
  ghost predicate BuildingsReported(db: Tables, after: Tables, t: Id, order: seq<Id>) {
    && Trail(db, after.audit, t, order)
    && Accounted(db, after, Reported(after.audit[|db.audit| + 1..]))
  }

  ghost predicate Trail(db: Tables, audit: seq<AuditEntry>, t: Id, order: seq<Id>) {
    var n := |db.audit|;
    && |audit| == n + 1 + 2 * |order| && audit[..n] == db.audit
    && (forall i | 0 <= i < |order| :: PairOf(db, t, order[i], audit[n + 1 + 2 * i], audit[n + 2 + 2 * i]))
  }

  ghost predicate Accounted(db: Tables, after: Tables, total: Counts) {
    && total.labels == |db.labels| - |after.labels| && total.findings == |db.findings| - |after.findings|
    && total.readings == |db.readings| - |after.readings| && total.calendar == |db.calendar| - |after.calendar|
  }

  ghost predicate PairOf(db: Tables, t: Id, b: Id, first: AuditEntry, second: AuditEntry) {
    && b in db.buildings && first == BuildingDeleted(t, b, db.buildings[b].name)
    && second.BuildingCompleted? && second.tenant == t && second.building == b && second.name == db.buildings[b].name
  }

  /** The whole trail: opened and closed with the tenant's name, and no row lost that is not reported. */
  ghost predicate TenantLossReported(db: Tables, after: Tables, t: Id, order: seq<Id>, name: string) {
    var n, m := |db.audit|, |after.audit| - 1;
    && m == n + 1 + 2 * |order|
    && after.audit[n] == TenantInitiated(t, name) && after.audit[m] == TenantCompleted(t, name)
    && BuildingsReported(db, after.(audit := after.audit[..m]), t, order)
  }

  lemma ReportedSnoc(log: seq<AuditEntry>, e: AuditEntry)
    ensures var sum := Reported(log);
            e.BuildingCompleted? ==>
              Reported(log + [e]) == Counts(sum.labels + e.labelsDeleted, sum.findings + e.findingsDeleted,
                                            sum.readings + e.readingsDeleted, sum.calendar + e.calendarDeleted)
    ensures !e.BuildingCompleted? ==> Reported(log + [e]) == Reported(log)
  {
    assert (log + [e])[..|log|] == log;
  }

  lemma ReportedPair(log: seq<AuditEntry>, first: AuditEntry, second: AuditEntry)
    requires !first.BuildingCompleted? && second.BuildingCompleted?
    ensures var sum := Reported(log);
            Reported(log + [first, second])
            == Counts(sum.labels + second.labelsDeleted, sum.findings + second.findingsDeleted,
                      sum.readings + second.readingsDeleted, sum.calendar + second.calendarDeleted)
  {
    ReportedSnoc(log, first);
    ReportedSnoc(log + [first], second);
    assert log + [first, second] == (log + [first]) + [second];
  }

  lemma TrailOneMore(db: Tables, audit: seq<AuditEntry>, t: Id, order: seq<Id>, b: Id, first: AuditEntry,
                     second: AuditEntry)
    requires Trail(db, audit, t, order) && PairOf(db, t, b, first, second)
    ensures Trail(db, audit + [first, second], t, order + [b])
  {
    var all, n := audit + [first, second], |db.audit|;
    assert all[..n] == audit[..n];
    forall i | 0 <= i < |order| + 1 ensures PairOf(db, t, (order + [b])[i], all[n + 1 + 2 * i], all[n + 2 + 2 * i]) {
      if i < |order| {
        assert PairOf(db, t, order[i], audit[n + 1 + 2 * i], audit[n + 2 + 2 * i]);
      }
    }
  }

  /** One more building adds its two entries and accounts for its own losses. */
  lemma OneMoreReported(db: Tables, before: Tables, t: Id, order: seq<Id>, b: Id)
    requires b in before.buildings && b in db.buildings && before.buildings[b] == db.buildings[b]
    requires BuildingsReported(db, before, t, order)
    ensures BuildingsReported(db, Purged(before, t, b), t, order + [b])
  {
    var after, n := Purged(before, t, b), |db.audit|;
    var first, second := BuildingDeleted(t, b, before.buildings[b].name), Completion(before, t, b);
    PurgedReportsLoss(before, t, b);
    assert after.audit == before.audit + [first, second];
    TrailOneMore(db, before.audit, t, order, b, first, second);
    ReportedPair(before.audit[n + 1..], first, second);
    assert after.audit[n + 1..] == before.audit[n + 1..] + [first, second];
  }

  lemma {:induction false} AllReported(db: Tables, t: Id, order: seq<Id>)
    requires ForeignKeys(db) && t in db.tenants
    requires forall i, j | 0 <= i < j < |order| :: order[i] != order[j]
    requires forall b | b in order :: OwnedBy(db, t, b)
    ensures BuildingsReported(db, PurgedAll(db, t, order), t, order)
  {
    if order != [] {
      var front, b := order[..|order| - 1], order[|order| - 1];
      assert order == front + [b];
      assert b in order && b !in front;
      AllReported(db, t, front);
      PurgedAllRows(db, t, front);
      OneMoreReported(db, PurgedAll(db, t, front), t, front, b);
    }
  }

  lemma {:induction false} AuditOpens(db: Tables, t: Id, order: seq<Id>)
    requires t in db.tenants
    ensures |PurgedAll(db, t, order).audit| > |db.audit|
    ensures PurgedAll(db, t, order).audit[|db.audit|] == TenantInitiated(t, db.tenants[t])
  {
    if order != [] {
      AuditOpens(db, t, order[..|order| - 1]);
    }
  }

  lemma TenantPurgedReportsLoss(db: Tables, t: Id, order: seq<Id>)
    requires ForeignKeys(db) && t in db.tenants && Enumerates(order, BuildingsOf(db.buildings, t))
    ensures TenantLossReported(db, TenantPurged(db, t, order), t, order, db.tenants[t])
  {
    AllReported(db, t, order);
    AuditOpens(db, t, order);
    var after, emptied := TenantPurged(db, t, order), PurgedAll(db, t, order);
    assert after.audit[..|after.audit| - 1] == emptied.audit;
    assert after.(audit := emptied.audit).labels == emptied.labels;
  }

  /** A finding of the tenant that names one of its buildings. */
  predicate FindingDoomed(db: Tables, t: Id, f: Id) {
    f in db.findings && db.findings[f].tenant == t && db.findings[f].building in BuildingsOf(db.buildings, t)
  }

  lemma FindingsGone(db: Tables, t: Id, order: seq<Id>)
    requires ForeignKeys(db) && t in db.tenants && Enumerates(order, BuildingsOf(db.buildings, t))
    ensures var after := TenantPurged(db, t, order);
            && (forall f :: f in after.findings <==> f in db.findings && !FindingDoomed(db, t, f))
            && (forall l :: l in after.labels <==> l in db.labels && !FindingDoomed(db, t, db.labels[l].finding))
            && SameRows(db, after)
  {
    PurgedAllRows(db, t, order);
    assert forall f | f in db.findings ::
        Gone(t, order, db.findings[f].tenant, db.findings[f].building) <==> FindingDoomed(db, t, f);
  }

  /** No finding of the tenant is left exactly when every one of them named a building of the tenant. */
  lemma TenantFindingsExactly(db: Tables, t: Id, order: seq<Id>)
    requires ForeignKeys(db) && t in db.tenants && Enumerates(order, BuildingsOf(db.buildings, t))
    ensures (forall f | f in TenantPurged(db, t, order).findings :: TenantPurged(db, t, order).findings[f].tenant != t)
            <==> (forall f | f in db.findings && db.findings[f].tenant == t ::
                    db.findings[f].building in BuildingsOf(db.buildings, t))
  {
    FindingsGone(db, t, order);
    var after := TenantPurged(db, t, order);
    forall f | f in db.findings && db.findings[f].tenant == t &&
      db.findings[f].building !in BuildingsOf(db.buildings, t)
      ensures f in after.findings && after.findings[f].tenant == t
    {
      assert !FindingDoomed(db, t, f);
    }
  }

  /** No label of another tenant is lost exactly when the doomed findings carry labels of this tenant only. */
  lemma TenantForeignLabelsExactly(db: Tables, t: Id, order: seq<Id>)
    requires ForeignKeys(db) && t in db.tenants && Enumerates(order, BuildingsOf(db.buildings, t))
    ensures (forall l | l in db.labels && db.labels[l].tenant != t :: l in TenantPurged(db, t, order).labels)
            <==> (forall l | l in db.labels && FindingDoomed(db, t, db.labels[l].finding) :: db.labels[l].tenant == t)
  {
    FindingsGone(db, t, order);
  }

  lemma OwnedUntilReached(db: Tables, t: Id, order: seq<Id>, b: Id)
    requires ForeignKeys(db) && t in db.tenants
    requires Enumerates(order, set x | x in order) && forall x | x in order :: OwnedBy(db, t, x)
    requires OwnedBy(db, t, b) && b !in order
    ensures OwnedBy(PurgedAll(db, t, order), t, b)
  {
    PurgedAllRows(db, t, order);
  }

  lemma PurgedAllSnoc(db: Tables, t: Id, order: seq<Id>, b: Id)
    requires t in db.tenants && b in PurgedAll(db, t, order).buildings
    ensures PurgedAll(db, t, order + [b]) == Purged(PurgedAll(db, t, order), t, b)
  {
    assert (order + [b])[..|order|] == order;
  }

  lemma ScopedMeansDeletable(db: Tables, t: Id, b: Id)
    requires ForeignKeys(db) && TenantScoped(db, t) && OwnedBy(db, t, b)
    ensures Deletable(db, t, b)
  {
    var group := CircuitsOf(db.circuits, t, b);
    forall c {:trigger db.circuits[c].parent} | c in db.circuits && c !in group && db.circuits[c].parent.Some?
      ensures db.circuits[c].parent.value !in group
    {
      assert ParentInside(db.circuits, db.circuits[c], t);
    }
  }

  lemma ScopedAfterPurge(db: Tables, t: Id, b: Id)
    requires ForeignKeys(db) && TenantScoped(db, t) && Deletable(db, t, b)
    ensures ForeignKeys(Purged(db, t, b)) && TenantScoped(Purged(db, t, b), t)
  {
    var after := Purged(db, t, b);
    PurgedKeepsKeys(db, t, b);
    forall c | c in after.circuits && after.circuits[c].tenant == t ensures !OwnAncestor(after.circuits, c) {
      forall n: nat | n >= 1 ensures Ancestor(after.circuits, c, n) != Some(c) {
        if Ancestor(after.circuits, c, n) == Some(c) {
          AncestorMonotone(after.circuits, db.circuits, c, n);
          assert OwnAncestor(db.circuits, c);
        }
      }
    }
    forall c {:trigger after.circuits[c].parent} | c in after.circuits && after.circuits[c].parent.Some?
      ensures ParentInside(after.circuits, after.circuits[c], t)
    {
      assert ParentInside(db.circuits, db.circuits[c], t);
    }
  }

  lemma {:induction false} ScopedThroughout(db: Tables, t: Id, order: seq<Id>)
    requires ForeignKeys(db) && t in db.tenants && TenantScoped(db, t)
    requires forall i, j | 0 <= i < j < |order| :: order[i] != order[j]
    requires forall b | b in order :: OwnedBy(db, t, b)
    ensures ForeignKeys(PurgedAll(db, t, order)) && TenantScoped(PurgedAll(db, t, order), t)
  {
    if order == [] {
      ScopedIgnoresAudit(db, PurgedAll(db, t, order), t);
    } else {
      var front, b := order[..|order| - 1], order[|order| - 1];
      assert order == front + [b];
      assert b !in front;
      ScopedThroughout(db, t, front);
      assert b in order && OwnedBy(db, t, b);
      PurgedAllRows(db, t, front);
      assert OwnedBy(PurgedAll(db, t, front), t, b);
      ScopedMeansDeletable(PurgedAll(db, t, front), t, b);
      ScopedAfterPurge(PurgedAll(db, t, front), t, b);
    }
  }

  lemma ScopedIgnoresAudit(db: Tables, other: Tables, t: Id)
    requires ForeignKeys(db) && TenantScoped(db, t) && other == db.(audit := other.audit)
    ensures ForeignKeys(other) && TenantScoped(other, t)
  {
  }

  lemma ScopedTenantRow(db: Tables, t: Id)
    requires ForeignKeys(db) && TenantScoped(db, t) && BuildingsOf(db.buildings, t) == {}
    ensures ForeignKeys(db.(tenants := db.tenants - {t}))
  {
    assert forall b | b in db.buildings :: b !in BuildingsOf(db.buildings, t);
  }

  lemma ScopedUnreferenced(db: Tables, t: Id, order: seq<Id>)
    requires ForeignKeys(db) && t in db.tenants && TenantScoped(db, t)
    requires Enumerates(order, BuildingsOf(db.buildings, t))
    ensures TenantUnreferenced(PurgedAll(db, t, order), t)
  {
    ScopedThroughout(db, t, order);
    AllOwnedGone(db, t, order);
    ScopedTenantRow(PurgedAll(db, t, order), t);
  }

  // ---------------------------------------------------------------- the statements before the loop

  /** The state after the initial audit entry and the first four DELETEs. */
  function Cleared(db: Tables, t: Id, b: Id): Tables
    requires b in db.buildings
  {
    db.(audit := db.audit + [BuildingDeleted(t, b, db.buildings[b].name)],
        labels := db.labels - LabelsDoomed(db, t, b),
        findings := db.findings - FindingsOf(db.findings, t, b),
        readings := db.readings - ReadingsDoomed(db, t, b),
        calendar := db.calendar - CalendarOf(db.calendar, t, b))
  }

  /** Each of the first four DELETEs leaves every foreign key intact, in the order the function runs them. */
  lemma ClearingKeepsKeys(db: Tables, t: Id, b: Id)
    requires ForeignKeys(db) && b in db.buildings
    ensures var s1 := db.(labels := db.labels - LabelsDoomed(db, t, b));
            var s2 := s1.(findings := s1.findings - FindingsOf(s1.findings, t, b));
            var s3 := s2.(readings := s2.readings - ReadingsDoomed(s2, t, b));
            var s4 := s3.(calendar := s3.calendar - CalendarOf(s3.calendar, t, b));
            ForeignKeys(s1) && ForeignKeys(s2) && ForeignKeys(s3) && ForeignKeys(s4) &&
            Cleared(db, t, b) == s4.(audit := db.audit + [BuildingDeleted(t, b, db.buildings[b].name)])
    ensures ForeignKeys(Cleared(db, t, b))
  {
    var s1 := db.(labels := db.labels - LabelsDoomed(db, t, b));
    var s2 := s1.(findings := s1.findings - FindingsOf(s1.findings, t, b));
    assert ForeignKeys(s2) by {
      forall l | l in s2.labels ensures s2.labels[l].finding in s2.findings {
        assert l !in LabelsDoomed(db, t, b);
      }
    }
  }

  // ---------------------------------------------------------------- the peeling loop

  /** What every round of the loop keeps: only circuits of the building go, never one on a cycle. */
  ghost predicate Peeling(start: Tables, cs: map<Id, Circuit>, t: Id, b: Id) {
    && CircuitKeys(start.tenants, start.buildings, cs, start.readings)
    && cs.Keys <= start.circuits.Keys
    && (forall c | c in cs :: cs[c] == start.circuits[c])
    && (forall c | c in start.circuits && c !in cs :: c in CircuitsOf(start.circuits, t, b))
    && (forall c | c in start.circuits && OwnAncestor(start.circuits, c) :: c in cs)
  }

  /** A row outside the building's circuits that points at one of them. */
  ghost predicate OutsideReference(db: Tables, t: Id, b: Id) {
    var group := CircuitsOf(db.circuits, t, b);
    || (exists c {:trigger db.circuits[c].parent} :: c in db.circuits && c !in group &&
                    db.circuits[c].parent.Some? && db.circuits[c].parent.value in group)
    || (exists r :: r in db.readings && r.circuit in group)
  }

  lemma PeelingContinues(start: Tables, cs: map<Id, Circuit>, t: Id, b: Id)
    requires Peeling(start, cs, t, b)
    requires CircuitKeys(start.tenants, start.buildings, cs - Leaves(cs, t, b), start.readings)
    ensures Peeling(start, cs - Leaves(cs, t, b), t, b)
    ensures Leaves(cs, t, b) != {} ==>
              |cs - Leaves(cs, t, b)| < |cs|
  {
    var leaves := Leaves(cs, t, b);
    var next := cs - leaves;
    assert next.Keys == cs.Keys - leaves;
    forall c | c in start.circuits && OwnAncestor(start.circuits, c) ensures c in next {
      var d := CyclePredecessor(start.circuits, c);
      assert cs[d].parent == Some(c);
      assert d in next ==> next[d].parent == Some(c);
      assert d in CircuitsOf(cs, t, b) ==> IsParentIn(cs, CircuitsOf(cs, t, b), c);
    }
  }

  /** A round that breaks a foreign key was broken by a row outside the building. */
  lemma LeafDeletionFails(start: Tables, cs: map<Id, Circuit>, t: Id, b: Id)
    requires Peeling(start, cs, t, b)
    requires !CircuitKeys(start.tenants, start.buildings, cs - Leaves(cs, t, b), start.readings)
    ensures OutsideReference(start, t, b)
  {
    var leaves := Leaves(cs, t, b);
    var group := CircuitsOf(start.circuits, t, b);
    var next := cs - leaves;
    assert leaves <= group;
    if r :| r in start.readings && r.circuit !in next {
      assert r.circuit in group;
    } else {
      var c :| c in next && next[c].parent.Some? && next[c].parent.value !in next;
      var p := next[c].parent.value;
      assert p in leaves by {
        assert cs[c].parent == Some(p);
      }
      assert c in start.circuits && c !in group && p in group;
    }
  }

  lemma OutsideReferenceMeansNotDeletable(saved: Tables, t: Id, b: Id)
    requires ForeignKeys(saved) && b in saved.buildings
    requires OutsideReference(Cleared(saved, t, b), t, b)
    ensures !Deletable(saved, t, b)
  {
    var group := CircuitsOf(saved.circuits, t, b);
    var db := Cleared(saved, t, b);
    if r :| r in db.readings && r.circuit in group {
      assert r in saved.readings && r !in ReadingsDoomed(saved, t, b);
    }
  }

  /** If the last DELETE fails, some row of the building survived that Deletable excludes. */
  lemma LeftoverMeansNotDeletable(saved: Tables, cs: map<Id, Circuit>, t: Id, b: Id)
    requires ForeignKeys(saved) && OwnedBy(saved, t, b)
    requires Peeling(Cleared(saved, t, b), cs, t, b)
    requires Leaves(cs, t, b) == {}
    requires !ForeignKeys(Cleared(saved, t, b).(circuits := cs, buildings := saved.buildings - {b}))
    ensures !Deletable(saved, t, b)
  {
    var left := CircuitsOf(cs, t, b);
    if left != {} {
      forall d | d in left ensures IsParentIn(cs, left, d) {
        assert d !in Leaves(cs, t, b);
      }
      var c := NoLeafMeansCycle(cs, left);
      var n: nat :| n >= 1 && Ancestor(cs, c, n) == Some(c);
      AncestorMonotone(cs, saved.circuits, c, n);
      assert c in CircuitsOf(saved.circuits, t, b) && OwnAncestor(saved.circuits, c);
    } else if c :| c in cs && cs[c].building == b {
      assert c !in left;
    } else {
      var k :| k in Cleared(saved, t, b).calendar && k.building == b;
      assert k in saved.calendar && k !in CalendarOf(saved.calendar, t, b);
    }
  }

  /** If no circuit of the building is left, the loop removed exactly the tenant's circuits of that building. */
  lemma AllPeeled(saved: Tables, cs: map<Id, Circuit>, t: Id, b: Id)
    requires b in saved.buildings && Peeling(Cleared(saved, t, b), cs, t, b)
    requires CircuitBuildingKey(saved.buildings - {b}, cs)
    ensures cs == saved.circuits - CircuitsOf(saved.circuits, t, b)
    ensures forall c | c in saved.circuits :: saved.circuits[c].building == b ==> saved.circuits[c].tenant == t
    ensures forall c | c in CircuitsOf(saved.circuits, t, b) :: !OwnAncestor(saved.circuits, c)
  {
    var group := CircuitsOf(saved.circuits, t, b);
    assert forall c | c in cs :: cs[c].building in saved.buildings - {b};
    assert cs.Keys == (saved.circuits - group).Keys;
  }

  /** If the last DELETE goes through, the building was deletable. */
  lemma EmptyMeansDeletable(saved: Tables, cs: map<Id, Circuit>, t: Id, b: Id)
    requires ForeignKeys(saved) && OwnedBy(saved, t, b)
    requires Peeling(Cleared(saved, t, b), cs, t, b)
    requires ForeignKeys(Cleared(saved, t, b).(circuits := cs, buildings := saved.buildings - {b}))
    ensures Deletable(saved, t, b)
  {
    var group := CircuitsOf(saved.circuits, t, b);
    AllPeeled(saved, cs, t, b);
    forall k | k in saved.calendar && k.building == b ensures k.tenant == t {
      assert k !in saved.calendar - CalendarOf(saved.calendar, t, b);
    }
    forall r | r in saved.readings && r.circuit in group ensures r.tenant == t {
      assert r !in saved.readings - ReadingsDoomed(saved, t, b);
    }
    forall c {:trigger saved.circuits[c].parent} | c in saved.circuits && c !in group && saved.circuits[c].parent.Some?
      ensures saved.circuits[c].parent.value !in group
    {
      assert c in cs && cs[c].parent == saved.circuits[c].parent;
    }
  }

  /** The last DELETE and the closing entry turn the peeled state into the purged one. */
  lemma BuildingRowGoes(saved: Tables, cs: map<Id, Circuit>, t: Id, b: Id)
    requires ForeignKeys(saved) && OwnedBy(saved, t, b)
    requires Peeling(Cleared(saved, t, b), cs, t, b)
    requires ForeignKeys(Cleared(saved, t, b).(circuits := cs, buildings := saved.buildings - {b}))
    ensures Deletable(saved, t, b) && ForeignKeys(Purged(saved, t, b))
    ensures LossReported(saved, Purged(saved, t, b), t, b, saved.buildings[b].name)
    ensures Purged(saved, t, b) ==
            Cleared(saved, t, b).(circuits := cs, buildings := saved.buildings - {b},
                                  audit := Cleared(saved, t, b).audit + [Completion(saved, t, b)])
  {
    AllPeeled(saved, cs, t, b);
    EmptyMeansDeletable(saved, cs, t, b);
    PurgedKeepsKeys(saved, t, b);
    PurgedReportsLoss(saved, t, b);
  }

  lemma {:induction false} AncestorMonotone(small: map<Id, Circuit>, large: map<Id, Circuit>, c: Id, n: nat)
    requires small.Keys <= large.Keys && forall d | d in small :: small[d] == large[d]
    requires Ancestor(small, c, n).Some?
    ensures Ancestor(large, c, n) == Ancestor(small, c, n)
    decreases n
  {
    if n > 0 {
      AncestorMonotone(small, large, small[c].parent.value, n - 1);
    }
  }
}
