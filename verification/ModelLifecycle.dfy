/**
 Model lifecycle: a promotion gate that reads the audit log it writes, the registry's champion
 alias, external approval, and automatic rollback, for every (tenant, building, model type).
 */
module ModelLifecycle {
  import opened Wrappers
  import opened Sorting

  type Id = nat

  datatype Key = Key(tenant: Id, building: Id, modelType: string)

  datatype Actor = AutomatedGate | Approver

  /** The audit entries of the lifecycle, plus anything else the tenant's log holds. */
  datatype Event =
    | Promoted(key: Key, version: nat, actor: Actor)
    | PromotionRejected(key: Key, candidate: Option<nat>, requiresReview: bool)
    | RolledBack(key: Key, fromVersion: nat, toVersion: nat)
    | RollbackImpossible(key: Key)
    | Unrelated(tenant: Id, eventType: string)

  datatype TrainingResult = TrainingResult(
    key: Key,
    registeredVersion: Option<nat>,
    nSamples: int,
    anomalyRate: Option<real>)

  datatype Settings = Settings(
    minTrainingSamples: int,
    maxAnomalyRate: real,
    reviewFirstN: int,
    maxFpRate: real,
    minSampleSize: int)

  datatype Decision = Decision(approved: bool, requiresReview: bool)

  datatype World = World(
    log: seq<Event>,
    registered: map<Key, seq<nat>>,
    champions: map<Key, nat>)

  const EMPTY := World([], map[], map[])

  // ---------------------------------------------------------------- queries

  function VersionsOf(registered: map<Key, seq<nat>>, key: Key): seq<nat> {
    if key in registered then registered[key] else []
  }

  function ChampionOf(champions: map<Key, nat>, key: Key): Option<nat> {
    if key in champions then Some(champions[key]) else None
  }

  /** count_promotions: entries of the key, whoever promoted. */
  function CountPromotions(log: seq<Event>, key: Key): nat {
    if log == [] then 0
    else CountPromotions(log[..|log| - 1], key)
         + (if log[|log| - 1].Promoted? && log[|log| - 1].key == key then 1 else 0)
  }

  predicate Descending(a: nat, b: nat) { a >= b }

  function Below(versions: seq<nat>, current: nat): seq<nat> {
    if versions == [] then []
    else (if versions[0] < current then [versions[0]] else []) + Below(versions[1..], current)
  }

  /** get_previous_version: newest first, keep the older ones, take the head. */
  function PreviousVersion(versions: seq<nat>, current: Option<nat>): Option<nat> {
    if current.None? then None
    else
      var older := Below(Sort(versions, Descending), current.value);
      if older == [] then None else Some(older[0])
  }

  // ---------------------------------------------------------------- the gate and the monitor

  function GateDecision(log: seq<Event>, result: TrainingResult, settings: Settings): Decision {
    if result.registeredVersion.None? then Decision(false, false)
    else if result.nSamples < settings.minTrainingSamples then Decision(false, false)
    else if result.anomalyRate.Some? && result.anomalyRate.value > settings.maxAnomalyRate then Decision(false, false)
    else
      var requiresReview := CountPromotions(log, result.key) < settings.reviewFirstN;
      Decision(!requiresReview, requiresReview)
  }

  function GateEvent(result: TrainingResult, decision: Decision): Event {
    if decision.approved && result.registeredVersion.Some?
    then Promoted(result.key, result.registeredVersion.value, AutomatedGate)
    else PromotionRejected(result.key, result.registeredVersion, decision.requiresReview)
  }

  datatype Verdict = TooFewLabels | NoRate | WithinCeiling | Exceeded

  function FalsePositiveVerdict(nConfirmed: nat, nDismissed: nat, settings: Settings): Verdict {
    var nLabeled := nConfirmed + nDismissed;
    if nLabeled < settings.minSampleSize then TooFewLabels
    else if nLabeled == 0 then NoRate
    else if nDismissed as real / nLabeled as real <= settings.maxFpRate then WithinCeiling
    else Exceeded
  }

  // ---------------------------------------------------------------- transitions

  datatype Step =
    | Train(result: TrainingResult)
    | Approve(key: Key, version: nat)
    | CheckRollback(checked: Key, nConfirmed: nat, nDismissed: nat)

  /** The registry hands out a version above every earlier one; only a registered version can carry the alias. */
  predicate Enabled(w: World, step: Step) {
    match step
    case Train(result) =>
      result.registeredVersion.Some? ==>
        forall v | v in VersionsOf(w.registered, result.key) :: v < result.registeredVersion.value
    case Approve(key, version) => version in VersionsOf(w.registered, key)
    case CheckRollback(_, _, _) => true
  }

  function Registered(w: World, result: TrainingResult): World {
    if result.registeredVersion.None? then w
    else w.(registered := w.registered[result.key := VersionsOf(w.registered, result.key) +
                                       [result.registeredVersion.value]])
  }

  /** Training registers a candidate, the gate logs its decision, and an approved candidate takes the alias. */
  function AfterTrain(w: World, result: TrainingResult, settings: Settings): World {
    var r := Registered(w, result);
    var decision := GateDecision(r.log, result, settings);
    r.(log := r.log + [GateEvent(result, decision)],
       champions := if decision.approved && result.registeredVersion.Some?
                    then r.champions[result.key := result.registeredVersion.value] else r.champions)
  }

  function AfterApprove(w: World, key: Key, version: nat): World {
    w.(log := w.log + [Promoted(key, version, Approver)], champions := w.champions[key := version])
  }

  function AfterRollback(w: World, key: Key): World {
    var previous := PreviousVersion(VersionsOf(w.registered, key), ChampionOf(w.champions, key));
    if previous.None? then w.(log := w.log + [RollbackImpossible(key)])
    else w.(log := w.log + [RolledBack(key, w.champions[key], previous.value)],
            champions := w.champions[key := previous.value])
  }

  function Next(w: World, step: Step, settings: Settings): World {
    if !Enabled(w, step) then w
    else match step
      case Train(result) => AfterTrain(w, result, settings)
      case Approve(key, version) => AfterApprove(w, key, version)
      case CheckRollback(key, nConfirmed, nDismissed) =>
        if FalsePositiveVerdict(nConfirmed, nDismissed, settings) == Exceeded then AfterRollback(w, key) else w
  }

  function Run(w: World, steps: seq<Step>, settings: Settings): World {
    if steps == [] then w
    else Next(Run(w, steps[..|steps| - 1], settings), steps[|steps| - 1], settings)
  }

  // ---------------------------------------------------------------- the running platform

  datatype RollbackOutcome = Unchanged | NoPriorVersion | MovedTo(version: nat) | AssertionFailed

  class Platform {
    const settings: Settings
    var log: seq<Event>
    var registered: map<Key, seq<nat>>
    var champions: map<Key, nat>

    function State(): World
      reads this
    {
      World(log, registered, champions)
    }

    constructor (settings: Settings)
      ensures this.settings == settings && State() == EMPTY
    {
      this.settings := settings;
      log, registered, champions := [], map[], map[];
    }

    /** PromotionGate.evaluate: every branch writes exactly one audit entry. */
    method Evaluate(result: TrainingResult) returns (decision: Decision)
      modifies this`log
      ensures decision == GateDecision(old(log), result, settings)
      ensures log == old(log) + [GateEvent(result, decision)]
      ensures decision.approved <==>
              SoundCandidate(result, settings) && |PromotionsAt(old(log), result.key)| >= settings.reviewFirstN
      ensures decision.requiresReview <==>
              SoundCandidate(result, settings) && |PromotionsAt(old(log), result.key)| < settings.reviewFirstN
    {
      CountIsNumber(log, result.key);
      if result.registeredVersion.None? {
        decision := Decision(false, false);
        log := log + [GateEvent(result, decision)];
        return;
      }
      if result.nSamples < settings.minTrainingSamples {
        decision := Decision(false, false);
        log := log + [GateEvent(result, decision)];
        return;
      }
      if result.anomalyRate.Some? && result.anomalyRate.value > settings.maxAnomalyRate {
        decision := Decision(false, false);
        log := log + [GateEvent(result, decision)];
        return;
      }
      var prior := CountPromotions(log, result.key);
      var requiresReview := prior < settings.reviewFirstN;
      decision := Decision(!requiresReview, requiresReview);
      log := log + [GateEvent(result, decision)];
    }

    /** Registration by the trainer, then the gate, then the alias. */
    method TrainCandidate(result: TrainingResult) returns (decision: Decision)
      requires Enabled(State(), Train(result))
      modifies this
      ensures State() == Next(old(State()), Train(result), settings)
      ensures decision == GateDecision(old(log), result, settings)
      ensures decision.approved <==>
              SoundCandidate(result, settings) && |PromotionsAt(old(log), result.key)| >= settings.reviewFirstN
      ensures decision.approved <==> |log| > |old(log)| && AutoPromotion(log[|old(log)|])
    {
      if result.registeredVersion.Some? {
        registered := registered[result.key := VersionsOf(registered, result.key) + [result.registeredVersion.value]];
      }
      decision := Evaluate(result);
      if decision.approved && result.registeredVersion.Some? {
        champions := champions[result.key := result.registeredVersion.value];
      }
    }

    /** train_and_evaluate: both ensemble members in order, or nothing with fewer than two usable rows. */
    method TrainAndEvaluate(nUsable: nat, forest: TrainingResult, autoencoder: TrainingResult)
      returns (decisions: seq<Decision>)
      requires forest.key != autoencoder.key
      requires Enabled(State(), Train(forest)) && Enabled(State(), Train(autoencoder))
      modifies this
      ensures nUsable < 2 ==> State() == old(State()) && decisions == []
      ensures nUsable >= 2 ==> State() == Run(old(State()), [Train(forest), Train(autoencoder)], settings)
      ensures nUsable >= 2 ==> |decisions| == 2
    {
      decisions := [];
      if nUsable < 2 {
        return;
      }
      ghost var before := State();
      var first := TrainCandidate(forest);
      StepIsLocal(before, Train(forest), settings, autoencoder.key);
      var second := TrainCandidate(autoencoder);
      decisions := [first, second];
      TwoSteps(before, Train(forest), Train(autoencoder), settings);
    }

    /** The external approval the gate waits for. */
    method ApproveVersion(key: Key, version: nat)
      requires Enabled(State(), Approve(key, version))
      modifies this
      ensures State() == Next(old(State()), Approve(key, version), settings)
    {
      log := log + [Promoted(key, version, Approver)];
      champions := champions[key := version];
    }

    /** RollbackMonitor.check_and_rollback. */
    method CheckAndRollback(key: Key, nConfirmed: nat, nDismissed: nat) returns (outcome: RollbackOutcome)
      modifies this
      ensures State() == Next(old(State()), CheckRollback(key, nConfirmed, nDismissed), settings)
      ensures outcome == AssertionFailed <==> nConfirmed + nDismissed == 0 && settings.minSampleSize <= 0
      ensures outcome.MovedTo? ==> ChampionOf(champions, key) == Some(outcome.version)
      ensures outcome.MovedTo? <==> champions != old(champions)
      ensures outcome.MovedTo? <==>
              TooManyDismissed(nConfirmed, nDismissed, settings) && HasOlder(old(State()), key)
      ensures outcome == NoPriorVersion <==>
              TooManyDismissed(nConfirmed, nDismissed, settings) && !HasOlder(old(State()), key)
    {
      var nLabeled := nConfirmed + nDismissed;
      if nLabeled > 0 {
        ShareAbove(nDismissed as real, nLabeled as real, settings.maxFpRate);
      }
      if nLabeled < settings.minSampleSize {
        return Unchanged;
      }
      if nLabeled == 0 {
        return AssertionFailed;
      }
      var fpRate := nDismissed as real / nLabeled as real;
      if fpRate <= settings.maxFpRate {
        return Unchanged;
      }
      var previous := PreviousVersion(VersionsOf(registered, key), ChampionOf(champions, key));
      PreviousIsGreatestBelow(VersionsOf(registered, key), ChampionOf(champions, key));
      if previous.None? {
        log := log + [RollbackImpossible(key)];
        return NoPriorVersion;
      }
      var current := champions[key];
      champions := champions[key := previous.value];
      log := log + [RolledBack(key, current, previous.value)];
      return MovedTo(previous.value);
    }
  }

  lemma TwoSteps(w: World, a: Step, b: Step, settings: Settings)
    ensures Run(w, [a, b], settings) == Next(Next(w, a, settings), b, settings)
  {
    assert [a, b][..1] == [a] && [a][..0] == [];
    assert Run(w, [a], settings) == Next(Run(w, [], settings), a, settings);
  }

  // ---------------------------------------------------------------- the rollback target

  lemma {:induction false} BelowMembers(versions: seq<nat>, current: nat)
    ensures forall v :: v in Below(versions, current) <==> v in versions && v < current
    ensures Ordered(versions, Descending) ==> Ordered(Below(versions, current), Descending)
  {
    if versions != [] {
      BelowMembers(versions[1..], current);
      assert versions == [versions[0]] + versions[1..];
      var rest := Below(versions[1..], current);
      if Ordered(versions, Descending) {
        forall v | v in rest ensures Descending(versions[0], v) {
          var i :| 0 <= i < |versions[1..]| && versions[1..][i] == v;
          assert versions[i + 1] == v;
        }
      }
    }
  }

  /** The rollback target is the greatest registered version strictly below the champion, when there is one. */
  lemma PreviousIsGreatestBelow(versions: seq<nat>, current: Option<nat>)
    ensures var p := PreviousVersion(versions, current);
            && (p.Some? ==> current.Some? && p.value in versions && p.value < current.value &&
                            forall v | v in versions && v < current.value :: v <= p.value)
            && (p.None? <==> current.None? || forall v | v in versions :: v >= current.value)
  {
    if current.Some? {
      var sorted := Sort(versions, Descending);
      SortProperties(versions, Descending);
      SortMembers(versions, Descending);
      BelowMembers(sorted, current.value);
      var older := Below(sorted, current.value);
      forall v | v in versions && v < current.value ensures older != [] && v <= older[0] {
        assert v in older;
        var i :| 0 <= i < |older| && older[i] == v;
        assert i > 0 ==> Descending(older[0], older[i]);
      }
      if older != [] {
        assert older[0] in older;
      }
    }
  }

  // ---------------------------------------------------------------- the log determines the champion

  /** Replaying the log: promotions set the version, completed rollbacks set their target. */
  function Replay(log: seq<Event>, key: Key): Option<nat> {
    if log == [] then None
    else match log[|log| - 1]
      case Promoted(k, version, _) => if k == key then Some(version) else Replay(log[..|log| - 1], key)
      case RolledBack(k, _, version) => if k == key then Some(version) else Replay(log[..|log| - 1], key)
      case _ => Replay(log[..|log| - 1], key)
  }

  lemma ReplayAppend(log: seq<Event>, e: Event, key: Key)
    ensures Replay(log + [e], key) ==
            match e
            case Promoted(k, version, _) => (if k == key then Some(version) else Replay(log, key))
            case RolledBack(k, _, version) => (if k == key then Some(version) else Replay(log, key))
            case _ => Replay(log, key)
    ensures CountPromotions(log + [e], key) ==
            CountPromotions(log, key) + (if e.Promoted? && e.key == key then 1 else 0)
  {
    assert (log + [e])[..|log|] == log;
  }

  ghost predicate Increasing(versions: seq<nat>) {
    forall i, j | 0 <= i < j < |versions| :: versions[i] < versions[j]
  }

  ghost predicate KeyConsistent(w: World, key: Key) {
    && Replay(w.log, key) == ChampionOf(w.champions, key)
    && Increasing(VersionsOf(w.registered, key))
    && (key in w.champions ==> w.champions[key] in VersionsOf(w.registered, key))
  }

  function KeyOf(step: Step): Key {
    match step
    case Train(result) => result.key
    case Approve(key, _) => key
    case CheckRollback(key, _, _) => key
  }

  lemma TrainConsistent(w: World, result: TrainingResult, settings: Settings)
    requires KeyConsistent(w, result.key) && Enabled(w, Train(result))
    ensures KeyConsistent(AfterTrain(w, result, settings), result.key)
  {
    var decision := GateDecision(w.log, result, settings);
    var versions := VersionsOf(w.registered, result.key);
    assert forall i | 0 <= i < |versions| :: versions[i] in versions;
    ReplayAppend(w.log, GateEvent(result, decision), result.key);
  }

  lemma StepConsistent(w: World, step: Step, settings: Settings)
    requires KeyConsistent(w, KeyOf(step))
    ensures KeyConsistent(Next(w, step, settings), KeyOf(step))
  {
    if Enabled(w, step) {
      match step
      case Train(result) => TrainConsistent(w, result, settings);
      case Approve(key, version) => ReplayAppend(w.log, Promoted(key, version, Approver), key);
      case CheckRollback(key, _, _) =>
        var previous := PreviousVersion(VersionsOf(w.registered, key), ChampionOf(w.champions, key));
        PreviousIsGreatestBelow(VersionsOf(w.registered, key), ChampionOf(w.champions, key));
        ReplayAppend(w.log, RollbackImpossible(key), key);
        if previous.Some? {
          ReplayAppend(w.log, RolledBack(key, w.champions[key], previous.value), key);
        }
    }
  }

  /** A step adds at most one entry, and that entry is about its own key. */
  lemma StepLogs(w: World, step: Step, settings: Settings) returns (e: Option<Event>)
    ensures var log := Next(w, step, settings).log;
            if e.Some? then log == w.log + [e.value] && !e.value.Unrelated? && e.value.key == KeyOf(step)
            else log == w.log
  {
    var log := Next(w, step, settings).log;
    e := if |log| == |w.log| then None else Some(log[|w.log|]);
  }

  /** A step on one key changes nothing that concerns another. */
  lemma StepIsLocal(w: World, step: Step, settings: Settings, other: Key)
    requires other != KeyOf(step)
    ensures var after := Next(w, step, settings);
            && ChampionOf(after.champions, other) == ChampionOf(w.champions, other)
            && VersionsOf(after.registered, other) == VersionsOf(w.registered, other)
            && Replay(after.log, other) == Replay(w.log, other)
            && CountPromotions(after.log, other) == CountPromotions(w.log, other)
            && CountRollbacks(after.log, other) == CountRollbacks(w.log, other)
    ensures w.log <= Next(w, step, settings).log
  {
    var e := StepLogs(w, step, settings);
    if e.Some? {
      ReplayAppend(w.log, e.value, other);
      RollbacksAppend(w.log, e.value, other);
    }
  }

  /** In every run the log replays to the champion of every key, and the champion is registered. */
  lemma {:induction false} RunConsistent(steps: seq<Step>, settings: Settings, key: Key)
    ensures KeyConsistent(Run(EMPTY, steps, settings), key)
  {
    if steps != [] {
      var front, last := steps[..|steps| - 1], steps[|steps| - 1];
      RunConsistent(front, settings, key);
      if KeyOf(last) == key {
        StepConsistent(Run(EMPTY, front, settings), last, settings);
      } else {
        StepIsLocal(Run(EMPTY, front, settings), last, settings, key);
      }
    }
  }

  // ---------------------------------------------------------------- no unattended first promotion

  function CountApprovals(log: seq<Event>, key: Key): nat {
    if log == [] then 0
    else CountApprovals(log[..|log| - 1], key)
         + (if log[|log| - 1].Promoted? && log[|log| - 1].key == key && log[|log| - 1].actor == Approver then 1 else 0)
  }

  lemma {:induction false} ApprovalsGrow(log: seq<Event>, n: nat, key: Key)
    requires n <= |log|
    ensures CountApprovals(log[..n], key) <= CountApprovals(log, key)
  {
    if n < |log| {
      var front := log[..|log| - 1];
      ApprovalsGrow(front, n, key);
      assert front[..n] == log[..n];
    } else {
      assert log[..n] == log;
    }
  }

  predicate AutoPromotion(e: Event) { e.Promoted? && e.actor == AutomatedGate }

  /** Before every automatic promotion the log holds N promotions of the same key by somebody else. */
  ghost predicate ReviewedFirst(log: seq<Event>, n: int) {
    forall i | 0 <= i < |log| && AutoPromotion(log[i]) :: CountApprovals(log[..i], log[i].key) >= n
  }

  /** With at least N promotions on record, N of them were approvals. */
  lemma {:induction false} PromotionsIncludeApprovals(log: seq<Event>, n: int, key: Key)
    requires ReviewedFirst(log, n)
    ensures CountApprovals(log, key) == CountPromotions(log, key) || CountApprovals(log, key) >= n
  {
    if log != [] {
      var front, last := log[..|log| - 1], log[|log| - 1];
      assert forall i | 0 <= i < |front| :: front[i] == log[i] && front[..i] == log[..i];
      PromotionsIncludeApprovals(front, n, key);
      if AutoPromotion(last) && last.key == key {
        assert CountApprovals(log[..|log| - 1], key) >= n;
      }
    }
  }

  lemma ReviewedAppend(log: seq<Event>, e: Event, n: int)
    requires ReviewedFirst(log, n)
    requires AutoPromotion(e) ==> CountApprovals(log, e.key) >= n
    ensures ReviewedFirst(log + [e], n)
  {
    var after := log + [e];
    forall i | 0 <= i < |after| && AutoPromotion(after[i]) ensures CountApprovals(after[..i], after[i].key) >= n {
      if i < |log| {
        assert after[..i] == log[..i];
      } else {
        assert after[..i] == log;
      }
    }
  }

  lemma StepReviewed(w: World, step: Step, settings: Settings)
    requires ReviewedFirst(w.log, settings.reviewFirstN)
    ensures ReviewedFirst(Next(w, step, settings).log, settings.reviewFirstN)
  {
    var after := Next(w, step, settings);
    if |after.log| > |w.log| {
      var e := after.log[|w.log|];
      assert after.log == w.log + [e];
      if AutoPromotion(e) {
        PromotionsIncludeApprovals(w.log, settings.reviewFirstN, e.key);
      }
      ReviewedAppend(w.log, e, settings.reviewFirstN);
    }
  }

  /** In every run the gate promotes nothing by itself before N approvals of that key. */
  lemma {:induction false} RunReviewed(steps: seq<Step>, settings: Settings)
    ensures ReviewedFirst(Run(EMPTY, steps, settings).log, settings.reviewFirstN)
  {
    if steps != [] {
      RunReviewed(steps[..|steps| - 1], settings);
      StepReviewed(Run(EMPTY, steps[..|steps| - 1], settings), steps[|steps| - 1], settings);
    }
  }

  // ---------------------------------------------------------------- what the gate demands

  /** The positions of a key's promotions in the log. */
  function PromotionsAt(log: seq<Event>, key: Key): set<nat> {
    set i: nat | i < |log| && log[i].Promoted? && log[i].key == key
  }

  lemma {:induction false} CountIsNumber(log: seq<Event>, key: Key)
    ensures CountPromotions(log, key) == |PromotionsAt(log, key)|
  {
    if log != [] {
      var front, n := log[..|log| - 1], |log| - 1;
      CountIsNumber(front, key);
      var last := if log[n].Promoted? && log[n].key == key then {n} else {};
      assert PromotionsAt(log, key) == PromotionsAt(front, key) + last;
    }
  }

  /** A candidate of sufficient sample size, registered, with no recorded rate above the ceiling. */
  predicate SoundCandidate(result: TrainingResult, settings: Settings) {
    && result.registeredVersion.Some?
    && settings.minTrainingSamples <= result.nSamples
    && (result.anomalyRate.Some? ==> result.anomalyRate.value <= settings.maxAnomalyRate)
  }

  /**
   Training takes the alias and logs an automatic promotion exactly for a sound candidate of a key with N
   promotions on record; otherwise the alias stays and a rejection is logged, held for review if it was sound.
   */
  lemma TrainPromotesExactly(w: World, result: TrainingResult, settings: Settings)
    requires Enabled(w, Train(result))
    ensures var after := Next(w, Train(result), settings);
            var promoted := SoundCandidate(result, settings)
                            && |PromotionsAt(w.log, result.key)| >= settings.reviewFirstN;
            && |after.log| == |w.log| + 1 && after.log[..|w.log|] == w.log
            && (promoted <==> AutoPromotion(after.log[|w.log|]))
            && (promoted ==> after.log[|w.log|] == Promoted(result.key, result.registeredVersion.value, AutomatedGate)
                             && after.champions == w.champions[result.key := result.registeredVersion.value])
            && (!promoted ==> after.champions == w.champions
                              && after.log[|w.log|] == PromotionRejected(result.key, result.registeredVersion,
                                                                         SoundCandidate(result, settings)))
            && VersionsOf(after.registered, result.key) ==
               VersionsOf(w.registered, result.key)
               + (if result.registeredVersion.Some? then [result.registeredVersion.value] else [])
  {
    CountIsNumber(w.log, result.key);
  }

  /** The step that wrote entry i of the log is an enabled training of a sound candidate with that key and version. */
  ghost predicate StemsFromTraining(w: World, steps: seq<Step>, settings: Settings, i: nat, e: Event)
    requires e.Promoted?
  {
    exists j :: 0 <= j < |steps| && PromotesAt(Run(w, steps[..j], settings), steps[j], settings, i, e)
  }

  ghost predicate PromotesAt(before: World, step: Step, settings: Settings, i: nat, e: Event)
    requires e.Promoted?
  {
    && |before.log| == i && step.Train? && Enabled(before, step) && SoundCandidate(step.result, settings)
    && step.result.key == e.key && step.result.registeredVersion == Some(e.version)
    && |PromotionsAt(before.log, e.key)| >= settings.reviewFirstN
  }

  lemma StemsOneMore(w: World, steps: seq<Step>, step: Step, settings: Settings, i: nat, e: Event)
    requires e.Promoted? && StemsFromTraining(w, steps, settings, i, e)
    ensures StemsFromTraining(w, steps + [step], settings, i, e)
  {
    var j :| 0 <= j < |steps| && PromotesAt(Run(w, steps[..j], settings), steps[j], settings, i, e);
    assert (steps + [step])[..j] == steps[..j] && (steps + [step])[j] == steps[j];
  }

  lemma StepPromotesSoundly(w: World, step: Step, settings: Settings)
    ensures var log := Next(w, step, settings).log;
            |log| > |w.log| && AutoPromotion(log[|w.log|]) ==> PromotesAt(w, step, settings, |w.log|, log[|w.log|])
  {
    if step.Train? && Enabled(w, step) {
      TrainPromotesExactly(w, step.result, settings);
    }
  }

  /** In every run each automatic promotion stems from training a candidate within the sample and rate limits. */
  lemma {:induction false} RunPromotesSoundly(steps: seq<Step>, settings: Settings, i: nat)
    requires i < |Run(EMPTY, steps, settings).log| && AutoPromotion(Run(EMPTY, steps, settings).log[i])
    ensures StemsFromTraining(EMPTY, steps, settings, i, Run(EMPTY, steps, settings).log[i])
  {
    if steps != [] {
      var front, last := steps[..|steps| - 1], steps[|steps| - 1];
      assert steps == front + [last];
      var before, after := Run(EMPTY, front, settings), Run(EMPTY, steps, settings);
      var e := StepLogs(before, last, settings);
      if i < |before.log| {
        assert after.log[i] == before.log[i];
        RunPromotesSoundly(front, settings, i);
        StemsOneMore(EMPTY, front, last, settings, i, after.log[i]);
      } else {
        StepPromotesSoundly(before, last, settings);
        assert steps[..|front|] == front;
      }
    }
  }

  // ---------------------------------------------------------------- what the monitor demands

  /** The reviewed findings suffice and the share of dismissed ones lies above the ceiling. */
  predicate TooManyDismissed(nConfirmed: nat, nDismissed: nat, settings: Settings) {
    && nConfirmed + nDismissed >= settings.minSampleSize && nConfirmed + nDismissed > 0
    && nDismissed as real > settings.maxFpRate * (nConfirmed + nDismissed) as real
  }

  lemma ShareAbove(x: real, n: real, ceiling: real)
    requires n > 0.0
    ensures x / n <= ceiling <==> x <= ceiling * n
  {
    assert (x / n) * n == x;
    if x / n <= ceiling {
      assert (ceiling - x / n) * n >= 0.0;
    } else {
      assert (x / n - ceiling) * n > 0.0;
    }
  }

  /**
   A check changes nothing unless too many findings were dismissed. Then the alias moves to the greatest registered
   version below it and the log names both, or the log says that there is none.
   */
  lemma RollbackExactly(w: World, key: Key, nConfirmed: nat, nDismissed: nat, settings: Settings)
    ensures var after := Next(w, CheckRollback(key, nConfirmed, nDismissed), settings);
            && after.registered == w.registered
            && (!TooManyDismissed(nConfirmed, nDismissed, settings) ==> after == w)
            && (TooManyDismissed(nConfirmed, nDismissed, settings) && !HasOlder(w, key) ==>
                  after.champions == w.champions && after.log == w.log + [RollbackImpossible(key)])
            && (TooManyDismissed(nConfirmed, nDismissed, settings) && HasOlder(w, key) ==>
                  && key in after.champions && GreatestOlder(w, key, after.champions[key])
                  && after.champions == w.champions[key := after.champions[key]]
                  && after.log == w.log + [RolledBack(key, w.champions[key], after.champions[key])])
  {
    if nConfirmed + nDismissed > 0 {
      ShareAbove(nDismissed as real, (nConfirmed + nDismissed) as real, settings.maxFpRate);
    }
    PreviousIsGreatestBelow(VersionsOf(w.registered, key), ChampionOf(w.champions, key));
  }

  predicate HasOlder(w: World, key: Key) {
    key in w.champions && exists v | v in VersionsOf(w.registered, key) :: v < w.champions[key]
  }

  predicate GreatestOlder(w: World, key: Key, target: nat) {
    && key in w.champions && target in VersionsOf(w.registered, key) && target < w.champions[key]
    && forall v | v in VersionsOf(w.registered, key) :: v <= target || v >= w.champions[key]
  }

  // ---------------------------------------------------------------- rollbacks run out

  function CountBelow(versions: seq<nat>, v: nat): nat {
    if versions == [] then 0 else (if versions[0] < v then 1 else 0) + CountBelow(versions[1..], v)
  }

  /** How many registered versions are older than the champion. */
  function OlderVersions(w: World, key: Key): nat {
    if key in w.champions then CountBelow(VersionsOf(w.registered, key), w.champions[key]) else 0
  }

  lemma {:induction false} CountBelowZero(versions: seq<nat>, c: nat)
    ensures CountBelow(versions, c) == 0 <==> forall v | v in versions :: v >= c
  {
    if versions != [] {
      var tail := versions[1..];
      CountBelowZero(tail, c);
      assert versions[0] in versions && forall v | v in tail :: v in versions;
      forall v | v in versions && CountBelow(versions, c) == 0 ensures v >= c {
        assert v == versions[0] || v in tail;
      }
    }
  }

  /** A rollback is possible exactly as long as some older version is left. */
  lemma OlderVersionsLeft(w: World, key: Key)
    ensures OlderVersions(w, key) > 0 <==> HasOlder(w, key)
  {
    if key in w.champions {
      CountBelowZero(VersionsOf(w.registered, key), w.champions[key]);
    }
  }

  lemma {:induction false} CountBelowNone(versions: seq<nat>, p: nat, c: nat)
    requires p < c && forall v | v in versions :: v < p || v >= c
    ensures CountBelow(versions, c) == CountBelow(versions, p)
  {
    if versions != [] {
      var tail := versions[1..];
      assert versions == [versions[0]] + tail;
      assert versions[0] in versions && forall v | v in tail :: v in versions;
      CountBelowNone(tail, p, c);
    }
  }

  /** Stepping down to the next older version passes exactly one of them. */
  lemma {:induction false} CountBelowStep(versions: seq<nat>, p: nat, c: nat)
    requires Increasing(versions) && p in versions && p < c
    requires forall v | v in versions && v < c :: v <= p
    ensures CountBelow(versions, c) == CountBelow(versions, p) + 1
  {
    var tail := versions[1..];
    assert versions == [versions[0]] + tail;
    forall v | v in tail ensures v in versions && v > versions[0] {
      var i :| 0 <= i < |tail| && tail[i] == v;
      assert versions[i + 1] == v;
    }
    if versions[0] == p {
      CountBelowNone(tail, p, c);
    } else {
      CountBelowStep(tail, p, c);
    }
  }

  lemma {:induction false} CountBelowAppend(versions: seq<nat>, v: nat, c: nat)
    requires c <= v
    ensures CountBelow(versions + [v], c) == CountBelow(versions, c)
  {
    if versions != [] {
      assert (versions + [v])[1..] == versions[1..] + [v];
      CountBelowAppend(versions[1..], v, c);
    } else {
      assert (versions + [v])[1..] == [];
    }
  }

  /** Completed rollbacks of the key on record. */
  function CountRollbacks(log: seq<Event>, key: Key): nat {
    if log == [] then 0
    else CountRollbacks(log[..|log| - 1], key)
         + (if log[|log| - 1].RolledBack? && log[|log| - 1].key == key then 1 else 0)
  }

  lemma {:induction false} RollbacksOnRecord(log: seq<Event>, key: Key)
    ensures CountRollbacks(log, key) > 0 <==> exists e :: e in log && e.RolledBack? && e.key == key
  {
    if log != [] {
      RollbacksOnRecord(log[..|log| - 1], key);
      assert log == log[..|log| - 1] + [log[|log| - 1]];
    }
  }

  lemma RollbacksAppend(log: seq<Event>, e: Event, key: Key)
    ensures CountRollbacks(log + [e], key) ==
            CountRollbacks(log, key) + (if e.RolledBack? && e.key == key then 1 else 0)
  {
    assert (log + [e])[..|log|] == log;
  }

  predicate Promotes(w: World, step: Step, settings: Settings, key: Key) {
    CountPromotions(Next(w, step, settings).log, key) > CountPromotions(w.log, key)
  }

  /** Rollbacks on record plus older versions left. */
  function RollbackBudget(w: World, key: Key): nat {
    CountRollbacks(w.log, key) + OlderVersions(w, key)
  }

  lemma TrainKeepsBudget(w: World, result: TrainingResult, settings: Settings)
    requires KeyConsistent(w, result.key) && Enabled(w, Train(result))
    requires !GateDecision(w.log, result, settings).approved
    ensures RollbackBudget(AfterTrain(w, result, settings), result.key) == RollbackBudget(w, result.key)
  {
    RollbacksAppend(w.log, GateEvent(result, GateDecision(w.log, result, settings)), result.key);
    if result.key in w.champions && result.registeredVersion.Some? {
      CountBelowAppend(VersionsOf(w.registered, result.key), result.registeredVersion.value, w.champions[result.key]);
    }
  }

  lemma RollbackKeepsBudget(w: World, key: Key)
    requires KeyConsistent(w, key)
    ensures RollbackBudget(AfterRollback(w, key), key) == RollbackBudget(w, key)
  {
    var versions := VersionsOf(w.registered, key);
    var previous := PreviousVersion(versions, ChampionOf(w.champions, key));
    PreviousIsGreatestBelow(versions, ChampionOf(w.champions, key));
    RollbacksAppend(w.log, RollbackImpossible(key), key);
    if previous.Some? {
      RollbacksAppend(w.log, RolledBack(key, w.champions[key], previous.value), key);
      CountBelowStep(versions, previous.value, w.champions[key]);
    }
  }

  lemma StepKeepsBudget(w: World, step: Step, settings: Settings, key: Key)
    requires KeyConsistent(w, key) && !Promotes(w, step, settings, key)
    ensures RollbackBudget(Next(w, step, settings), key) == RollbackBudget(w, key)
  {
    if KeyOf(step) != key {
      StepIsLocal(w, step, settings, key);
    } else if Enabled(w, step) {
      match step
      case Train(result) =>
        ReplayAppend(w.log, GateEvent(result, GateDecision(w.log, result, settings)), key);
        TrainKeepsBudget(w, result, settings);
      case Approve(_, version) =>
        ReplayAppend(w.log, Promoted(key, version, Approver), key);
      case CheckRollback(_, _, _) =>
        RollbackKeepsBudget(w, key);
    }
  }

  ghost predicate NoPromotion(w: World, steps: seq<Step>, settings: Settings, key: Key) {
    forall i | 0 <= i < |steps| :: !Promotes(Run(w, steps[..i], settings), steps[i], settings, key)
  }

  /**
   While nothing is promoted, every rollback uses up exactly one older version: rollbacks on record
   plus older versions left stay constant, so no more rollbacks follow than there are older versions.
   */
  lemma {:induction false} RollbacksUseUpOlder(w: World, steps: seq<Step>, settings: Settings, key: Key)
    requires KeyConsistent(w, key) && NoPromotion(w, steps, settings, key)
    ensures KeyConsistent(Run(w, steps, settings), key)
    ensures RollbackBudget(Run(w, steps, settings), key) == RollbackBudget(w, key)
  {
    if steps != [] {
      var front, last := steps[..|steps| - 1], steps[|steps| - 1];
      assert forall i | 0 <= i < |front| :: front[i] == steps[i] && front[..i] == steps[..i];
      RollbacksUseUpOlder(w, front, settings, key);
      var before := Run(w, front, settings);
      StepKeepsBudget(before, last, settings, key);
      if KeyOf(last) == key {
        StepConsistent(before, last, settings);
      } else {
        StepIsLocal(before, last, settings, key);
      }
    }
  }

  // ---------------------------------------------------------------- where rollbacks land

  ghost predicate EverPromoted(log: seq<Event>, key: Key, version: nat) {
    exists e :: e in log && e.Promoted? && e.key == key && e.version == version
  }

  /** The state after n rollbacks in a row. */
  function Rollbacks(w: World, key: Key, n: nat): World
    decreases n
  {
    if n == 0 then w else Rollbacks(AfterRollback(w, key), key, n - 1)
  }

  function Target(w: World, key: Key): Option<nat> {
    PreviousVersion(VersionsOf(w.registered, key), ChampionOf(w.champions, key))
  }

  /** However many rollbacks follow one another from w, the next one lands on a version promoted before w. */
  ghost predicate LandsOnPromoted(w: World, key: Key, log: seq<Event>) {
    forall n: nat :: var target := Target(Rollbacks(w, key, n), key); target.Some? ==>
      EverPromoted(log, key, target.value)
  }

  ghost predicate OlderAllPromoted(w: World, key: Key, log: seq<Event>) {
    key in w.champions ==>
      forall v | v in VersionsOf(w.registered, key) && v < w.champions[key] :: EverPromoted(log, key, v)
  }

  lemma RollbackKeepsVersions(w: World, key: Key)
    ensures VersionsOf(AfterRollback(w, key).registered, key) == VersionsOf(w.registered, key)
    ensures Target(w, key).None? ==> AfterRollback(w, key).champions == w.champions
    ensures Target(w, key).Some? ==>
              && key in w.champions && Target(w, key).value < w.champions[key]
              && key in AfterRollback(w, key).champions
              && AfterRollback(w, key).champions[key] == Target(w, key).value
  {
    PreviousIsGreatestBelow(VersionsOf(w.registered, key), ChampionOf(w.champions, key));
  }

  /** Rollbacks only walk down: each target is an older version of the state the walk started from. */
  lemma {:induction false} TargetsAreOlder(w: World, key: Key, n: nat)
    ensures var target := Target(Rollbacks(w, key, n), key);
            target.Some? ==> key in w.champions && target.value in VersionsOf(w.registered, key)
                             && target.value < w.champions[key]
    decreases n
  {
    RollbackKeepsVersions(w, key);
    if n == 0 {
      PreviousIsGreatestBelow(VersionsOf(w.registered, key), ChampionOf(w.champions, key));
    } else {
      TargetsAreOlder(AfterRollback(w, key), key, n - 1);
    }
  }

  /** And they miss none: every older version is the target of some rollback of the walk. */
  lemma {:induction false} EveryOlderIsATarget(w: World, key: Key, v: nat) returns (n: nat)
    requires key in w.champions && v in VersionsOf(w.registered, key) && v < w.champions[key]
    ensures Target(Rollbacks(w, key, n), key) == Some(v)
    decreases w.champions[key]
  {
    PreviousIsGreatestBelow(VersionsOf(w.registered, key), ChampionOf(w.champions, key));
    RollbackKeepsVersions(w, key);
    var target := Target(w, key);
    if target == Some(v) {
      n := 0;
    } else {
      var m := EveryOlderIsATarget(AfterRollback(w, key), key, v);
      n := m + 1;
    }
  }

  /**
   Consecutive rollbacks land on promoted versions only, exactly when every registered version
   older than the champion has a promotion on record.
   */
  lemma RollbacksLandOnPromotedExactly(w: World, key: Key)
    ensures LandsOnPromoted(w, key, w.log) <==> OlderAllPromoted(w, key, w.log)
  {
    if OlderAllPromoted(w, key, w.log) {
      forall n: nat ensures var target := Target(Rollbacks(w, key, n), key);
                            target.Some? ==> EverPromoted(w.log, key, target.value)
      {
        TargetsAreOlder(w, key, n);
      }
    }
    if LandsOnPromoted(w, key, w.log) && key in w.champions {
      forall v | v in VersionsOf(w.registered, key) && v < w.champions[key] ensures EverPromoted(w.log, key, v) {
        var n := EveryOlderIsATarget(w, key, v);
      }
    }
  }

  /** The defaults of the three settings classes. */
  const DEFAULTS := Settings(50, 0.25, 3, 0.3, 10)

  function Candidate(key: Key, version: nat): Step {
    Train(TrainingResult(key, Some(version), 50, None))
  }

  /** Two candidates held for review, the second one approved, then ten dismissed findings. */
  function UnpromotedRun(key: Key): seq<Step> {
    [Candidate(key, 1), Candidate(key, 2), Approve(key, 2), CheckRollback(key, 0, 10)]
  }

  function LogOfUnpromotedRun(key: Key): seq<Event> {
    [Held(key, 1), Held(key, 2), Promoted(key, 2, Approver), RolledBack(key, 2, 1)]
  }

  lemma RunOneMore(w: World, steps: seq<Step>, step: Step, settings: Settings)
    ensures Run(w, steps + [step], settings) == Next(Run(w, steps, settings), step, settings)
  {
    assert (steps + [step])[..|steps|] == steps;
  }

  function Held(key: Key, version: nat): Event {
    PromotionRejected(key, Some(version), true)
  }

  /** A sound candidate of a key without promotions is registered and held for review. */
  lemma HeldCandidate(w: World, key: Key, versions: seq<nat>, version: nat)
    requires versions == VersionsOf(w.registered, key) && forall v | v in versions :: v < version
    requires CountPromotions(w.log, key) == 0
    ensures Next(w, Candidate(key, version), DEFAULTS)
            == World(w.log + [Held(key, version)], w.registered[key := versions + [version]], w.champions)
    ensures CountPromotions(w.log + [Held(key, version)], key) == 0
  {
    var result := TrainingResult(key, Some(version), 50, None);
    assert GateDecision(w.log, result, DEFAULTS) == Decision(false, true);
    ReplayAppend(w.log, Held(key, version), key);
  }

  lemma FirstHeld(key: Key)
    ensures Next(EMPTY, Candidate(key, 1), DEFAULTS) == World([Held(key, 1)], map[key := [1]], map[])
  {
    HeldCandidate(EMPTY, key, [], 1);
    assert EMPTY.log + [Held(key, 1)] == [Held(key, 1)];
    assert [] + [1] == [1];
  }

  lemma SecondHeld(key: Key)
    ensures Next(World([Held(key, 1)], map[key := [1]], map[]), Candidate(key, 2), DEFAULTS)
            == World([Held(key, 1), Held(key, 2)], map[key := [1, 2]], map[])
  {
    var first := World([Held(key, 1)], map[key := [1]], map[]);
    assert CountPromotions([Held(key, 1)], key) == 0 by {
      ReplayAppend([], Held(key, 1), key);
      assert [] + [Held(key, 1)] == [Held(key, 1)];
    }
    HeldCandidate(first, key, [1], 2);
    assert [1] + [2] == [1, 2];
  }

  lemma TwoHeldCandidates(key: Key)
    ensures Run(EMPTY, UnpromotedRun(key)[..2], DEFAULTS)
            == World([Held(key, 1), Held(key, 2)], map[key := [1, 2]], map[])
  {
    assert UnpromotedRun(key)[..2] == [Candidate(key, 1), Candidate(key, 2)];
    TwoSteps(EMPTY, Candidate(key, 1), Candidate(key, 2), DEFAULTS);
    FirstHeld(key);
    SecondHeld(key);
  }

  /** A run of the platform that rolls back to version 1, which nothing ever promoted. */
  lemma RollbackTargetMayBeUnpromoted(key: Key)
    ensures var w := Run(EMPTY, UnpromotedRun(key), DEFAULTS);
            ChampionOf(w.champions, key) == Some(1) && !EverPromoted(w.log, key, 1)
  {
    var steps := UnpromotedRun(key);
    TwoHeldCandidates(key);
    var held := Run(EMPTY, steps[..2], DEFAULTS);
    assert steps[..3] == steps[..2] + [steps[2]] && steps == steps[..3] + [steps[3]];
    RunOneMore(EMPTY, steps[..2], steps[2], DEFAULTS);
    RunOneMore(EMPTY, steps[..3], steps[3], DEFAULTS);
    var approved := AfterApprove(held, key, 2);
    assert 1 in [1, 2] && 2 in [1, 2];
    assert Next(held, steps[2], DEFAULTS) == approved;
    PreviousIsGreatestBelow([1, 2], Some(2));
    assert FalsePositiveVerdict(0, 10, DEFAULTS) == Exceeded;
    assert Run(EMPTY, steps, DEFAULTS) == AfterRollback(approved, key);
    assert AfterRollback(approved, key).log == LogOfUnpromotedRun(key);
  }
}
