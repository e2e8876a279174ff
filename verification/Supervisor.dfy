/**
 * The supervisor as a transition system (src/daemon.rs, `run`): the machine, the
 * two actuation slots, the pending intent, the gate, one device register, and
 * the history of what was evaluated, recorded and attempted. Frames, worker
 * outcomes, timeouts, signals and crashes arrive as events in any order.
 */
module Supervisors {
  import opened Prelude
  import Clock
  import opened Telemetry
  import opened PowerLimits
  import opened Assessments
  import opened SafetyMachines
  import opened SafetyPolicies

  // ---- readings -----------------------------------------------------------------

  /** What one read of the device brought, when, and under which cadence it is judged. */
  datatype Acquisition = Acquisition(raw: RawTelemetry, now: nat, cadenceMs: nat)

  /** An acquired frame and what classification makes of it. */
  datatype Reading = Reading(kind: AssessmentKind, from: Acquisition)

  /** Verdicts do not depend on the clock's past (`SourceTimeAndSafety`), so any will do. */
  const UNSTAMPED := Clock.ClockState("", 0, None)

  /** An acquisition as the supervisor uses it under a policy. */
  function ReadingOf(a: Acquisition, policy: SafetyPolicy): Reading {
    Reading(Classify(Assessed(a.raw, a.now, a.cadenceMs, UNSTAMPED), policy), a)
  }

  const UNAVAILABLE := Reading(AssessmentKind.Missing, Acquisition(NvmlUnavailableRaw(0), 0, 1))
  const SIMULATED := Reading(Simulated, Acquisition(SoftwareFallbackRaw(0), 0, 1))

  /** Whenever and however often they are acquired, the two degraded frames read as these constants say. */
  lemma DegradedReadings(observedAt: nat, now: nat, cadenceMs: nat, policy: SafetyPolicy)
    ensures ReadingOf(Acquisition(NvmlUnavailableRaw(observedAt), now, cadenceMs), policy).kind == UNAVAILABLE.kind
    ensures ReadingOf(Acquisition(SoftwareFallbackRaw(observedAt), now, cadenceMs), policy).kind == SIMULATED.kind
  {
    DegradedAcquisitions(observedAt, now, cadenceMs, UNSTAMPED, policy);
  }

  // ---- history ----------------------------------------------------------------

  datatype Entry =
    | Boot(policy: ResolvedPolicy)
    | SeededAtBoot
    | Judged(reading: Reading, engaged: bool)
    | Reported(outcome: ActuatorOutcome)
    | Attempt(intent: BrakeIntent, spawned: bool)

  datatype History = Start | Then(past: History, last: Entry)

  /** The evaluations made while the present claim of an engaged brake stood. */
  function EngagedEvaluations(h: History): seq<Reading> {
    match h
    case Start => []
    case Then(past, Judged(reading, engaged)) => if engaged then EngagedEvaluations(past) + [reading] else []
    case Then(past, Reported(outcome)) => if outcome.ReleaseFailed? then EngagedEvaluations(past) else []
    case Then(past, Attempt(_, _)) => EngagedEvaluations(past)
    case Then(_, _) => []
  }

  function Kinds(readings: seq<Reading>): seq<AssessmentKind> {
    if readings == [] then [] else Kinds(readings[..|readings| - 1]) + [readings[|readings| - 1].kind]
  }

  function OkStreak(h: History): nat {
    OkSuffix(Kinds(EngagedEvaluations(h)))
  }

  /** The policy of the session the history is in. */
  function SessionPolicy(h: History): Option<ResolvedPolicy> {
    match h
    case Start => None
    case Then(past, Boot(policy)) => Some(policy)
    case Then(past, _) => SessionPolicy(past)
  }

  function SessionStreak(h: History): nat {
    var policy := SessionPolicy(h);
    if policy.Some? then policy.value.config.releaseOkStreak else 0
  }

  /** The last command of this session was a Release, spawned on a complete Ok streak. */
  predicate ReleaseAuthorised(h: History) {
    match h
    case Start => false
    case Then(past, Attempt(intent, true)) => intent == Release && OkStreak(past) >= SessionStreak(past)
    case Then(_, Boot(_)) => false
    case Then(past, _) => ReleaseAuthorised(past)
  }

  /** A failed actuation was recorded after the last attempt to dispatch. */
  predicate FailedSinceAttempt(h: History) {
    match h
    case Start => false
    case Then(_, Attempt(_, _)) => false
    case Then(_, Boot(_)) => false
    case Then(past, Reported(outcome)) => outcome.ApplyFailed? || outcome.ReleaseFailed? || FailedSinceAttempt(past)
    case Then(past, _) => FailedSinceAttempt(past)
  }

  /** The commands a history shows as attempted, in order. */
  function AttemptLog(h: History): seq<BrakeIntent> {
    match h
    case Start => []
    case Then(past, Attempt(intent, _)) => AttemptLog(past) + [intent]
    case Then(past, _) => AttemptLog(past)
  }

  function Attempts(h: History): nat {
    match h
    case Start => 0
    case Then(past, Attempt(_, _)) => Attempts(past) + 1
    case Then(past, _) => Attempts(past)
  }

  // ---- state ------------------------------------------------------------------

  /** `Returned`: the worker is done and its permit dropped, but the task does not count as finished yet. */
  datatype Slot = Empty | Running | Returned(result: JobResult) | Finished(result: JobResult)

  datatype Core = Core(
    software: bool,
    policy: ResolvedPolicy,
    m: Machine,
    brake: Slot,
    release: Slot,
    pending: Option<BrakeIntent>,
    step: nat,
    busy: bool,
    readers: nat,
    dev: Device,
    h: History)

  datatype Flags = Flags(evaluated: bool, failed: bool, due: bool)

  /** Where the loop is suspended, or what comes next; `holds` says whether the pending read has the permit. */
  datatype Pc =
    | Idle
    | Starting
    | AcquiringTick(holds: bool)
    | CollectingBrake(reading: Reading)
    | RereadingBrake(reading: Reading, holds: bool)
    | CollectingRelease(reading: Reading, flags: Flags)
    | RereadingRelease(reading: Reading, flags: Flags, holds: bool)
    | Finishing(reading: Reading, flags: Flags)
    | Stopped

  datatype State = State(pc: Pc, c: Core)

  datatype ReadResult = ReadValue(from: Acquisition) | ReadPanicked | ReadTimedOut

  /** Progress of the blocking workers. */
  datatype EnvEvent = WorkerReturns(input: JobInput) | TaskFinishes | LateReaderReturns

  datatype BootInput = BootInput(
    policy: ResolvedPolicy, software: bool, readCurrent: bool, readDefault: bool, lateReader: bool)

  datatype Event =
    | Proceed
    | ReadEnds(result: ReadResult)
    | Environment(env: EnvEvent)
    | Signal(input: JobInput, timedOut: bool)
    | Crash(input: JobInput, boot: BootInput)

  // ---- the operations of the loop ---------------------------------------------

  predicate ShouldEvaluateTick(step: nat, source: TelemetrySource) {
    step == 1 || step % 10 == 0 || source == NvmlUnavailable
  }

  predicate ShouldDispatchIntent(step: nat, prior: BrakeIntent, current: BrakeIntent, failedThisTick: bool) {
    current != NoIntent && (current != prior || (!failedThisTick && (step == 1 || step % 10 == 0)))
  }

  datatype DispatchResult = Spawned | GateBusy | AlreadyInFlight | NothingWanted

  datatype SpawnEnd = SpawnEnd(c: Core, result: DispatchResult)

  function SpawnIntent(c: Core): SpawnEnd {
    var intent := Intent(c.m);
    if !c.brake.Empty? || !c.release.Empty? then SpawnEnd(c, AlreadyInFlight)
    else if intent == NoIntent then SpawnEnd(c, NothingWanted)
    else if c.busy then SpawnEnd(c.(h := Then(c.h, Attempt(intent, false))), GateBusy)
    else if intent == Apply then
      SpawnEnd(c.(brake := Running, busy := true, h := Then(c.h, Attempt(intent, true))), Spawned)
    else SpawnEnd(c.(release := Running, busy := true, h := Then(c.h, Attempt(intent, true))), Spawned)
  }

  function DispatchDueOrPending(c: Core, due: bool): Core {
    var intent := Intent(c.m);
    var pending := if c.pending == Some(intent) then c.pending else None;
    if !due && pending.None? then c.(pending := None)
    else
      var end := SpawnIntent(c);
      end.c.(pending := if end.result == GateBusy then Some(intent) else None)
  }

  function Judge(c: Core, reading: Reading): Core {
    c.(m := Evaluated(c.m, reading.kind).m, h := Then(c.h, Judged(reading, c.m.brakeEngaged)))
  }

  function Report(c: Core, outcome: ActuatorOutcome): Core {
    c.(m := Recorded(c.m, outcome).m, h := Then(c.h, Reported(outcome)))
  }

  predicate ReadTakesPermit(c: Core) {
    !c.software && !c.busy
  }

  function StartRead(c: Core): Core {
    if ReadTakesPermit(c) then c.(busy := true, readers := c.readers + 1) else c
  }

  /** A read that timed out keeps its permit until the driver call returns. */
  predicate ReadDropsPermit(c: Core, holds: bool, result: ReadResult) {
    !c.software && holds && !result.ReadTimedOut?
  }

  function EndRead(c: Core, holds: bool, result: ReadResult): Core {
    if ReadDropsPermit(c, holds, result) then c.(busy := false, readers := SatSub(c.readers, 1)) else c
  }

  function Acquired(c: Core, holds: bool, result: ReadResult): Reading {
    if c.software then SIMULATED
    else if holds && result.ReadValue? then ReadingOf(result.from, c.policy)
    else UNAVAILABLE
  }

  function WorkerStep(c: Core, input: JobInput): Core {
    if c.brake.Running? then
      var end := ApplyJob(c.dev, input);
      c.(busy := false, dev := end.dev, brake := Returned(end.result))
    else if c.release.Running? then
      var end := ReleaseJob(c.dev, input);
      c.(busy := false, dev := end.dev, release := Returned(end.result))
    else c
  }

  function TaskStep(c: Core): Core {
    if c.brake.Returned? then c.(brake := Finished(c.brake.result))
    else if c.release.Returned? then c.(release := Finished(c.release.result))
    else c
  }

  predicate HasLateReader(c: Core, holds: bool) {
    c.readers > if holds then 1 else 0
  }

  function EnvStep(c: Core, holds: bool, e: EnvEvent): Core {
    match e
    case WorkerReturns(input) => WorkerStep(c, input)
    case TaskFinishes => TaskStep(c)
    case LateReaderReturns =>
      if HasLateReader(c, holds) then c.(busy := false, readers := c.readers - 1) else c
  }

  // ---- one iteration, segment by segment ----------------------------------------

  /** Top of the loop: a blocked Apply goes first. */
  function BeginDispatch(c: Core): Core {
    var c1 := c.(step := c.step + 1);
    if c1.pending == Some(Apply) then DispatchDueOrPending(c1, false) else c1
  }

  /** Then the tick's read tries the gate; whoever returns in between changes what it finds. */
  function StartTick(c: Core): State {
    State(AcquiringTick(ReadTakesPermit(c)), StartRead(c))
  }

  function CollectBrake(c: Core, reading: Reading): State {
    if !c.brake.Finished? then State(CollectingRelease(reading, Flags(false, false, false)), c)
    else match c.brake.result
      case Success(_) =>
        var c1 := Report(c.(brake := Empty), Applied);
        State(RereadingBrake(reading, ReadTakesPermit(c1)), StartRead(c1))
      case Failure(error) =>
        State(CollectingRelease(reading, Flags(false, true, false)), Report(c.(brake := Empty), ApplyFailed(error)))
  }

  function CollectRelease(c: Core, reading: Reading, flags: Flags): State {
    if !c.release.Finished? then State(Finishing(reading, flags), c)
    else match c.release.result
      case Success(_) =>
        var c1 := Report(c.(release := Empty), Released);
        State(RereadingRelease(reading, flags, ReadTakesPermit(c1)), StartRead(c1))
      case Failure(error) =>
        State(Finishing(reading, flags.(failed := true)), Report(c.(release := Empty), ReleaseFailed(error)))
  }

  /** The forced re-evaluation that follows a completed actuation. */
  function Reassess(c: Core, holds: bool, result: ReadResult): Core {
    Judge(EndRead(c, holds, result), Acquired(c, holds, result))
  }

  function FinishJudge(c: Core, reading: Reading, flags: Flags): Core {
    if !flags.evaluated && ShouldEvaluateTick(c.step, reading.from.raw.source) then Judge(c, reading) else c
  }

  predicate FinishDue(c: Core, reading: Reading, flags: Flags) {
    if !flags.evaluated && ShouldEvaluateTick(c.step, reading.from.raw.source) then
      ShouldDispatchIntent(c.step, Intent(c.m), Evaluated(c.m, reading.kind).snap.intent, flags.failed)
    else flags.due
  }

  function Finish(c: Core, reading: Reading, flags: Flags): Core {
    DispatchDueOrPending(FinishJudge(c, reading, flags), FinishDue(c, reading, flags))
  }

  // ---- start, shutdown, crash ----------------------------------------------------

  /** Process start: a fresh machine, seeded when the register shows the relay's own brake. */
  function Started(boot: BootInput, dev: Device, h: History): Core {
    var seen := ClassifyPowerLimit(Read(boot.readCurrent, dev.currentW), Read(boot.readDefault, dev.defaultW),
                                   BRAKE_FRACTION);
    var booted := Then(h, Boot(boot.policy));
    var fresh' := NewMachine(boot.policy.config.releaseOkStreak);
    Core(boot.software, boot.policy,
         if seen.RelayOwnedBrake? then Seeded(fresh') else fresh',
         Empty, Empty, None, 0, boot.lateReader, if boot.lateReader then 1 else 0, dev,
         if seen.RelayOwnedBrake? then Then(booted, SeededAtBoot) else booted)
  }

  function ApplyOutcome(result: JobResult): ActuatorOutcome {
    match result
    case Success(_) => Applied
    case Failure(error) => ApplyFailed(error)
  }

  function ReleaseOutcome(result: JobResult): ActuatorOutcome {
    match result
    case Success(_) => Released
    case Failure(error) => ReleaseFailed(error)
  }

  datatype InFlightActuation = NoneInFlight | ApplyInFlight | ReleaseInFlight

  function InFlight(c: Core): InFlightActuation {
    if !c.brake.Empty? then ApplyInFlight else if !c.release.Empty? then ReleaseInFlight else NoneInFlight
  }

  datatype ShutdownActuation = LeaveIdle | AwaitApply | AwaitAuthorizedRelease

  datatype ShutdownPlan = ShutdownPlan(
    actuation: ShutdownActuation,
    leaveBrakeEngaged: bool,
    unresolvedBrake: bool,
    unresolvedActuator: bool)

  function PlanShutdown(snap: Snapshot, inFlight: InFlightActuation): ShutdownPlan {
    ShutdownPlan(
      match inFlight
      case ApplyInFlight => AwaitApply
      case ReleaseInFlight => AwaitAuthorizedRelease
      case NoneInFlight => LeaveIdle,
      snap.brakeEngaged || inFlight.ApplyInFlight?,
      snap.brakeEngaged || snap.desiredBrake || inFlight.ApplyInFlight?,
      snap.lastActuatorError.Some? || snap.actuatorFailed)
  }

  function JoinApply(c: Core): Core {
    if c.brake.Finished? then Report(c.(brake := Empty), ApplyOutcome(c.brake.result)) else c
  }

  function JoinRelease(c: Core): Core {
    if c.release.Finished? then Report(c.(release := Empty), ReleaseOutcome(c.release.result)) else c
  }

  /**
   * Orderly shutdown. A join that times out records nothing; the detached worker
   * stays in its slot and acts no later than process exit.
   */
  function Shutdown(c: Core, input: JobInput, timedOut: bool): Core {
    match PlanShutdown(SnapshotOf(c.m), InFlight(c)).actuation
    case LeaveIdle => c
    case AwaitApply =>
      if c.brake.Finished? then JoinApply(c)
      else if timedOut then c
      else JoinApply(TaskStep(WorkerStep(c, input)))
    case AwaitAuthorizedRelease =>
      if c.release.Finished? then JoinRelease(c)
      else if timedOut then c
      else JoinRelease(TaskStep(WorkerStep(c, input)))
  }

  // ---- runs ----------------------------------------------------------------------

  predicate Holds(pc: Pc) {
    match pc
    case AcquiringTick(holds) => holds
    case RereadingBrake(_, holds) => holds
    case RereadingRelease(_, _, holds) => holds
    case _ => false
  }

  function Step(s: State, e: Event): State {
    match e
    case Environment(env) => s.(c := EnvStep(s.c, Holds(s.pc), env))
    case Crash(input, boot) => State(Idle, Started(boot, WorkerStep(s.c, input).dev, s.c.h))
    case Signal(input, timedOut) =>
      if s.pc.Idle? then State(Stopped, Shutdown(s.c, input, timedOut)) else s
    case Proceed =>
      (match s.pc
       case Idle => State(Starting, BeginDispatch(s.c))
       case Starting => StartTick(s.c)
       case CollectingBrake(reading) => CollectBrake(s.c, reading)
       case CollectingRelease(reading, flags) => CollectRelease(s.c, reading, flags)
       case Finishing(reading, flags) => State(Idle, Finish(s.c, reading, flags))
       case _ => s)
    case ReadEnds(result) =>
      (match s.pc
       case AcquiringTick(holds) =>
         State(CollectingBrake(Acquired(s.c, holds, result)), EndRead(s.c, holds, result))
       case RereadingBrake(reading, holds) =>
         State(CollectingRelease(reading, Flags(true, false, true)), Reassess(s.c, holds, result))
       case RereadingRelease(reading, flags, holds) =>
         State(Finishing(reading, flags.(evaluated := true, due := true)), Reassess(s.c, holds, result))
       case _ => s)
  }

  function Run(s: State, events: seq<Event>): State
    decreases |events|
  {
    if events == [] then s else Run(Step(s, events[0]), events[1..])
  }

  /** The first process ever started on the device. */
  function Initial(boot: BootInput, dev: Device): State {
    State(Idle, Started(boot, dev, Start))
  }

  lemma {:induction false} RunAppend(s: State, a: seq<Event>, b: seq<Event>)
    ensures Run(s, a + b) == Run(Run(s, a), b)
    decreases |a|
  {
    if a == [] {
      assert a + b == b;
    } else {
      assert (a + b)[1..] == a[1..] + b;
      RunAppend(Step(s, a[0]), a[1..], b);
    }
  }

  lemma RunOne(s: State, e: Event)
    ensures Run(s, [e]) == Step(s, e)
  {
    assert [e][1..] == [];
  }
}
