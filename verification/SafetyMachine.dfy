/**
 * The hysteresis state machine (src/safety.rs, `SafetyMachine`): transition
 * functions on values, the facts a caller relies on, and the mutable machine
 * proved against them. Log-oriented reason strings are not modelled.
 */
module SafetyMachines {
  import opened Prelude
  import opened SafetyPolicies
  import Telemetry
  import PowerLimits
  import opened Assessments

  datatype SafetyState =
    | HealthyReal
    | Warning
    | CriticalBraked
    | Recovering
    | TelemetryMissing
    | TelemetryStale
    | TelemetryInvalid
    | SimulatedSoftwareOnly
    | ActuatorFailure

  datatype BrakeIntent = NoIntent | Apply | Release

  datatype ActuatorOutcome =
    | Applied
    | ApplyFailed(error: PowerLimits.ActuatorError)
    | Released
    | ReleaseFailed(error: PowerLimits.ActuatorError)

  datatype Snapshot = Snapshot(
    state: SafetyState,
    policyState: SafetyState,
    brakeEngaged: bool,
    desiredBrake: bool,
    intent: BrakeIntent,
    hysteresisOkCount: U32,
    lastActuatorError: Option<PowerLimits.ActuatorError>,
    transition: Option<(SafetyState, SafetyState)>,
    actuatorFailed: bool)

  /** The fields of a machine; `streak` is its policy's `release_ok_streak`. */
  datatype Machine = Machine(
    streak: U32,
    brakeEngaged: bool,
    okCount: U32,
    justReleased: bool,
    lastActuatorError: Option<PowerLimits.ActuatorError>,
    lastPolicyState: SafetyState,
    state: SafetyState,
    transitionsTotal: U64,
    actuatorFailuresTotal: U64)

  function IntentFrom(desiredBrake: bool, brakeEngaged: bool): BrakeIntent {
    match (desiredBrake, brakeEngaged)
    case (true, false) => Apply
    case (false, true) => Release
    case _ => NoIntent
  }

  function NewMachine(streak: U32): Machine {
    Machine(streak, false, 0, false, None, TelemetryMissing, TelemetryMissing, 0, 0)
  }

  function Seeded(m: Machine): Machine {
    m.(brakeEngaged := true, okCount := 0, justReleased := false, lastPolicyState := Recovering, state := Recovering)
  }

  function DesiredFromLastPolicy(m: Machine): bool {
    match m.lastPolicyState
    case HealthyReal => false
    case SimulatedSoftwareOnly => m.brakeEngaged
    case Warning => m.brakeEngaged || m.justReleased
    case Recovering => m.okCount < m.streak
    case _ => true
  }

  function SnapshotOf(m: Machine): Snapshot {
    var desired := DesiredFromLastPolicy(m);
    Snapshot(m.state, m.lastPolicyState, m.brakeEngaged, desired, IntentFrom(desired, m.brakeEngaged),
             m.okCount, m.lastActuatorError, None, false)
  }

  function Intent(m: Machine): BrakeIntent {
    SnapshotOf(m).intent
  }

  datatype Moved = Moved(m: Machine, snap: Snapshot)

  function ComposeAndStore(m: Machine, desiredBrake: bool, actuatorFailed: bool): Moved {
    var reported := if m.lastActuatorError.Some? then ActuatorFailure else m.lastPolicyState;
    var changed := m.state != reported;
    var m' := m.(state := reported,
                 transitionsTotal := if changed then SatAdd64(m.transitionsTotal, 1) else m.transitionsTotal);
    Moved(m', Snapshot(reported, m.lastPolicyState, m.brakeEngaged, desiredBrake,
                       IntentFrom(desiredBrake, m.brakeEngaged), m.okCount, m.lastActuatorError,
                       if changed then Some((m.state, reported)) else None, actuatorFailed))
  }

  datatype Judgement = Judgement(state: SafetyState, okCount: U32, desiredBrake: bool)

  function PolicyFor(m: Machine, kind: AssessmentKind, justReleased: bool): Judgement {
    match kind
    case Simulated => Judgement(SimulatedSoftwareOnly, 0, m.brakeEngaged)
    case Missing => Judgement(TelemetryMissing, 0, true)
    case Invalid => Judgement(TelemetryInvalid, 0, true)
    case Stale => Judgement(TelemetryStale, 0, true)
    case Critical => Judgement(CriticalBraked, 0, true)
    case Warn => Judgement(Warning, 0, m.brakeEngaged || justReleased)
    case Ok =>
      if m.brakeEngaged then
        var okCount := SatAdd32(m.okCount, 1);
        Judgement(Recovering, okCount, okCount < m.streak)
      else
        Judgement(HealthyReal, 0, false)
  }

  function Evaluated(m: Machine, kind: AssessmentKind): Moved {
    var j := PolicyFor(m, kind, m.justReleased);
    ComposeAndStore(
      m.(justReleased := false,
         okCount := j.okCount,
         lastPolicyState := j.state,
         lastActuatorError := if j.state == HealthyReal && !j.desiredBrake then None else m.lastActuatorError),
      j.desiredBrake, false)
  }

  function Recorded(m: Machine, outcome: ActuatorOutcome): Moved {
    var m' := match outcome
      case Applied => m.(brakeEngaged := true, lastActuatorError := None, justReleased := false)
      case ApplyFailed(error) =>
        m.(brakeEngaged := false, lastActuatorError := Some(error),
           actuatorFailuresTotal := SatAdd64(m.actuatorFailuresTotal, 1))
      case Released =>
        m.(brakeEngaged := false, okCount := 0, justReleased := true, lastActuatorError := None,
           lastPolicyState := HealthyReal)
      case ReleaseFailed(error) =>
        m.(lastActuatorError := Some(error), actuatorFailuresTotal := SatAdd64(m.actuatorFailuresTotal, 1));
    ComposeAndStore(m', DesiredFromLastPolicy(m'), outcome.ApplyFailed? || outcome.ReleaseFailed?)
  }

  predicate FailClosed(kind: AssessmentKind) {
    kind.Missing? || kind.Invalid? || kind.Stale? || kind.Critical?
  }

  // ---- one machine, on its own ----------------------------------------------

  /**
   * The snapshot `evaluate` returns and the one `snapshot()` recomputes agree on
   * desire and intent, except for exactly one situation: a warning right after a
   * release. There the returned intent is Apply and the recomputed one is none.
   */
  lemma FreshAndRecomputedDecisions(m: Machine, kind: AssessmentKind)
    ensures var moved := Evaluated(m, kind);
            var exception := kind == Warn && !m.brakeEngaged && m.justReleased;
            var again := SnapshotOf(moved.m);
            && (moved.snap.desiredBrake == again.desiredBrake <==> !exception)
            && (moved.snap.intent == again.intent <==> !exception)
            && (exception ==> moved.snap.intent == Apply && again.intent == NoIntent)
            && again == moved.snap.(desiredBrake := again.desiredBrake, intent := again.intent, transition := None)
  {
  }

  /** Recording an outcome never shows the discrepancy. */
  lemma RecordedDecisionsAgree(m: Machine, outcome: ActuatorOutcome)
    ensures var moved := Recorded(m, outcome);
            SnapshotOf(moved.m) == moved.snap.(transition := None, actuatorFailed := false)
  {
  }

  /**
   * What one evaluation can want. A release needs an engaged brake, an Ok frame
   * and a full streak; an apply needs a disengaged brake and either a fail-closed
   * frame or a warning right after a release.
   */
  lemma EvaluationIntents(m: Machine, kind: AssessmentKind)
    ensures var snap := Evaluated(m, kind).snap;
            && (snap.intent == Release <==> m.brakeEngaged && kind == Ok && SatAdd32(m.okCount, 1) >= m.streak)
            && (snap.intent == Apply <==> !m.brakeEngaged && (FailClosed(kind) || (kind == Warn && m.justReleased)))
            && (snap.desiredBrake <== FailClosed(kind))
  {
  }

  /**
   * Which state a verdict puts the machine in, both ways: the policy state names
   * the kind of the frame, recovering and healthy are told apart by the claim,
   * and the reported state is the policy state unless an actuator error stands.
   */
  lemma VerdictStates(m: Machine, kind: AssessmentKind)
    ensures var snap := Evaluated(m, kind).snap;
            && (snap.policyState == CriticalBraked <==> kind == Critical)
            && (snap.policyState == TelemetryMissing <==> kind == AssessmentKind.Missing)
            && (snap.policyState == TelemetryInvalid <==> kind == AssessmentKind.Invalid)
            && (snap.policyState == TelemetryStale <==> kind == AssessmentKind.Stale)
            && (snap.policyState == Warning <==> kind == Warn)
            && (snap.policyState == SimulatedSoftwareOnly <==> kind == Simulated)
            && (snap.policyState == Recovering <==> kind == Ok && m.brakeEngaged)
            && (snap.policyState == HealthyReal <==> kind == Ok && !m.brakeEngaged)
            && (snap.lastActuatorError.None? ==> snap.state == snap.policyState)
            && (snap.lastActuatorError.Some? ==> snap.state == ActuatorFailure)
            && snap.lastActuatorError == (if kind == Ok && !m.brakeEngaged then None else m.lastActuatorError)
            && snap.brakeEngaged == m.brakeEngaged && !snap.actuatorFailed
            && snap.policyState == Evaluated(m, kind).m.lastPolicyState
            && snap.state == Evaluated(m, kind).m.state
  {
  }

  /**
   * What an outcome changes: the claim, the mark of a fresh release, the streak,
   * the policy state and the failure count, each exactly when it should.
   */
  lemma OutcomeEffects(m: Machine, outcome: ActuatorOutcome)
    ensures var m' := Recorded(m, outcome).m;
            var failed := outcome.ApplyFailed? || outcome.ReleaseFailed?;
            && (m'.brakeEngaged <==> outcome.Applied? || (outcome.ReleaseFailed? && m.brakeEngaged))
            && (m'.justReleased <==> outcome.Released? || (failed && m.justReleased))
            && m'.okCount == (if outcome.Released? then 0 else m.okCount)
            && m'.lastPolicyState == (if outcome.Released? then HealthyReal else m.lastPolicyState)
            && m'.lastActuatorError == (if failed then Some(outcome.error) else None)
            && m'.actuatorFailuresTotal == Min(m.actuatorFailuresTotal + if failed then 1 else 0, U64_MAX)
            && m'.streak == m.streak
  {
  }

  /** A transition is announced and counted exactly when the reported state changes. */
  predicate Announced(m: Machine, moved: Moved) {
    && (moved.snap.transition.Some? <==> moved.m.state != m.state)
    && (moved.snap.transition.Some? ==> moved.snap.transition.value == (m.state, moved.m.state))
    && moved.m.transitionsTotal == Min(m.transitionsTotal + if moved.m.state != m.state then 1 else 0, U64_MAX)
  }

  lemma TransitionsAreChanges(m: Machine, kind: AssessmentKind, outcome: ActuatorOutcome)
    ensures Announced(m, Evaluated(m, kind)) && Announced(m, Recorded(m, outcome))
    ensures Recorded(m, outcome).snap.actuatorFailed <==> outcome.ApplyFailed? || outcome.ReleaseFailed?
  {
  }

  /** Simulated frames never ask for a command, whatever the machine was doing, and cost any earned streak. */
  lemma SimulationNeverActs(m: Machine)
    ensures var moved := Evaluated(m, Simulated);
            && moved.snap.intent == NoIntent && Intent(moved.m) == NoIntent
            && moved.m.brakeEngaged == m.brakeEngaged && moved.m.okCount == 0
  {
  }

  /**
   * On its own the machine does not enforce the streak: an apply that completes
   * after a healthy evaluation yields a Release intent with no Ok evaluation
   * behind it. That happens exactly when the last policy state is HealthyReal
   * (or an already complete streak is on the books).
   */
  lemma ApplyCompletionWantsRelease(m: Machine)
    ensures Recorded(m, Applied).snap.intent == Release <==>
              m.lastPolicyState == HealthyReal || (m.lastPolicyState == Recovering && m.okCount >= m.streak)
  {
  }

  lemma StreakNeedsReassessment(streak: U32)
    requires streak >= 1
    ensures var healthy := Evaluated(NewMachine(streak), Ok).m;
            Recorded(healthy, Applied).snap.intent == Release && Recorded(healthy, Applied).snap.hysteresisOkCount == 0
  {
  }

  /** Length of the longest all-Ok suffix. */
  function OkSuffix(kinds: seq<AssessmentKind>): nat {
    if kinds == [] || kinds[|kinds| - 1] != Ok then 0 else 1 + OkSuffix(kinds[..|kinds| - 1])
  }

  lemma OkSuffixOfAppend(kinds: seq<AssessmentKind>, kind: AssessmentKind)
    ensures OkSuffix(kinds + [kind]) == if kind == Ok then OkSuffix(kinds) + 1 else 0
  {
    assert (kinds + [kind])[..|kinds|] == kinds;
  }

  function EvaluateAll(m: Machine, kinds: seq<AssessmentKind>): Machine {
    if kinds == [] then m
    else Evaluated(EvaluateAll(m, kinds[..|kinds| - 1]), kinds[|kinds| - 1]).m
  }

  lemma {:induction false} EvaluationsCountOks(m: Machine, kinds: seq<AssessmentKind>)
    requires m.brakeEngaged && m.okCount == 0
    ensures var m' := EvaluateAll(m, kinds);
            m'.okCount == Min(OkSuffix(kinds), U32_MAX) && m'.brakeEngaged && m'.streak == m.streak
  {
    if kinds != [] {
      EvaluationsCountOks(m, kinds[..|kinds| - 1]);
    }
  }

  /**
   * Over any sequence of frames with the brake on: the machine asks for a release
   * exactly when the all-Ok suffix has reached the streak, never for an apply.
   */
  lemma ReleaseExactlyOnStreak(m: Machine, kinds: seq<AssessmentKind>)
    requires m.brakeEngaged && m.okCount == 0 && m.streak >= 1
    requires kinds != []
    ensures Intent(EvaluateAll(m, kinds)) == if OkSuffix(kinds) >= m.streak then Release else NoIntent
  {
    EvaluationsCountOks(m, kinds[..|kinds| - 1]);
    EvaluationsCountOks(m, kinds);
  }

  // ---- the mutable machine ---------------------------------------------------

  class SafetyMachine {
    const policy: SafetyPolicy
    var brakeEngaged: bool
    var okCount: U32
    var justReleased: bool
    var lastActuatorError: Option<PowerLimits.ActuatorError>
    var lastPolicyState: SafetyState
    var state: SafetyState
    var transitionsTotal: U64
    var actuatorFailuresTotal: U64

    constructor WithPolicy(policy: SafetyPolicy)
      ensures View() == NewMachine(policy.config.releaseOkStreak) && this.policy == policy
    {
      this.policy := policy;
      brakeEngaged, okCount, justReleased := false, 0, false;
      lastActuatorError := None;
      lastPolicyState, state := TelemetryMissing, TelemetryMissing;
      transitionsTotal, actuatorFailuresTotal := 0, 0;
    }

    function View(): Machine
      reads this
    {
      Machine(policy.config.releaseOkStreak, brakeEngaged, okCount, justReleased, lastActuatorError,
              lastPolicyState, state, transitionsTotal, actuatorFailuresTotal)
    }

    method SeedBrakeApplied()
      modifies this
      ensures View() == Seeded(old(View()))
    {
      brakeEngaged := true;
      okCount := 0;
      justReleased := false;
      lastPolicyState := Recovering;
      state := Recovering;
    }

    method Evaluate(frame: Telemetry.TelemetryFrame) returns (snap: Snapshot)
      modifies this
      ensures Moved(View(), snap) == Evaluated(old(View()), Classify(frame, policy))
    {
      snap := EvaluateKind(Classify(frame, policy));
    }

    method EvaluateKind(kind: AssessmentKind) returns (snap: Snapshot)
      modifies this
      ensures Moved(View(), snap) == Evaluated(old(View()), kind)
    {
      var wasJustReleased := justReleased;
      justReleased := false;
      var policyState, desiredBrake := JudgePolicy(kind, wasJustReleased);
      if policyState == HealthyReal && !desiredBrake {
        lastActuatorError := None;
      }
      lastPolicyState := policyState;
      snap := Store(desiredBrake, false);
    }

    method RecordActuator(outcome: ActuatorOutcome) returns (snap: Snapshot)
      modifies this
      ensures Moved(View(), snap) == Recorded(old(View()), outcome)
    {
      var actuatorFailed := false;
      match outcome {
        case Applied =>
          brakeEngaged := true;
          lastActuatorError := None;
          justReleased := false;
        case ApplyFailed(error) =>
          brakeEngaged := false;
          lastActuatorError := Some(error);
          actuatorFailuresTotal := SatAdd64(actuatorFailuresTotal, 1);
          actuatorFailed := true;
        case Released =>
          brakeEngaged := false;
          okCount := 0;
          justReleased := true;
          lastActuatorError := None;
          lastPolicyState := HealthyReal;
        case ReleaseFailed(error) =>
          lastActuatorError := Some(error);
          actuatorFailuresTotal := SatAdd64(actuatorFailuresTotal, 1);
          actuatorFailed := true;
      }
      snap := Store(DesiredFromLastPolicy(View()), actuatorFailed);
    }

    method JudgePolicy(kind: AssessmentKind, wasJustReleased: bool)
      returns (policyState: SafetyState, desiredBrake: bool)
      modifies this
      ensures Judgement(policyState, okCount, desiredBrake) == PolicyFor(old(View()), kind, wasJustReleased)
      ensures View() == old(View()).(okCount := okCount)
    {
      match kind {
        case Simulated =>
          okCount := 0;
          policyState, desiredBrake := SimulatedSoftwareOnly, brakeEngaged;
        case Missing => policyState, desiredBrake := FailClosedAs(TelemetryMissing);
        case Invalid => policyState, desiredBrake := FailClosedAs(TelemetryInvalid);
        case Stale => policyState, desiredBrake := FailClosedAs(TelemetryStale);
        case Critical => policyState, desiredBrake := FailClosedAs(CriticalBraked);
        case Warn =>
          okCount := 0;
          policyState, desiredBrake := Warning, brakeEngaged || wasJustReleased;
        case Ok =>
          if brakeEngaged {
            okCount := SatAdd32(okCount, 1);
            policyState, desiredBrake := Recovering, okCount < policy.config.releaseOkStreak;
          } else {
            okCount := 0;
            policyState, desiredBrake := HealthyReal, false;
          }
      }
    }

    method FailClosedAs(s: SafetyState) returns (policyState: SafetyState, desiredBrake: bool)
      modifies this
      ensures policyState == s && desiredBrake
      ensures View() == old(View()).(okCount := 0)
    {
      okCount := 0;
      policyState, desiredBrake := s, true;
    }

    method Store(desiredBrake: bool, actuatorFailed: bool) returns (snap: Snapshot)
      modifies this
      ensures Moved(View(), snap) == ComposeAndStore(old(View()), desiredBrake, actuatorFailed)
    {
      var prev := state;
      var reported := if lastActuatorError.Some? then ActuatorFailure else lastPolicyState;
      var transition := None;
      if prev != reported {
        transitionsTotal := SatAdd64(transitionsTotal, 1);
        transition := Some((prev, reported));
      }
      state := reported;
      snap := Snapshot(reported, lastPolicyState, brakeEngaged, desiredBrake, IntentFrom(desiredBrake, brakeEngaged),
                       okCount, lastActuatorError, transition, actuatorFailed);
    }
  }
}
