/**
 * The supervisor process on mutable state, statement by statement in the order
 * of src/daemon.rs: start-up, the loop body, orderly shutdown. One pass of the
 * loop body is proved equal to `Tick`, and every frame goes through one clock.
 */
module SupervisorProcess {
  import opened Prelude
  import opened Float32
  import opened SafetyPolicies
  import opened Clock
  import opened Telemetry
  import opened PowerLimits
  import opened Assessments
  import opened SafetyMachines
  import Gates
  import opened Supervisors
  import opened SupervisorSafety
  import opened SupervisorHealth
  import opened SupervisorLoop

  /** Whatever the clock has stamped before, a frame's verdict is that of its acquisition. */
  lemma VerdictOfFrame(a: Acquisition, policy: SafetyPolicy, c: ClockState)
    ensures Classify(Assessed(a.raw, a.now, a.cadenceMs, c), policy) == ReadingOf(a, policy).kind
  {
    SourceTimeAndSafety(a.raw, a.now, a.cadenceMs, c, UNSTAMPED, policy);
  }

  class Supervisor {
    const software: bool
    const policy: ResolvedPolicy
    const machine: SafetyMachine
    const clock: SampleClock
    const gate: Gates.NvmlGate
    const actuator: NvmlActuator
    var brakeTask: Slot
    var releaseTask: Slot
    var pendingIntent: Option<BrakeIntent>
    var stepCount: nat
    var readWorkers: nat
    ghost var history: History
    /** The frames handed to the publisher, whatever became of them. */
    ghost var published: seq<TelemetryFrame>

    ghost predicate Valid()
      reads this, gate
    {
      && gate.Valid() && gate.live == readWorkers + Live(brakeTask) + Live(releaseTask)
      && machine.policy == policy
    }

    /** Frames are published in the order of their ids, and later ones get higher ids. */
    ghost predicate InFeedOrder()
      reads this`published, clock
    {
      && (forall i, j :: 0 <= i < j < |published| ==> published[i].batchId < published[j].batchId)
      && (forall i :: 0 <= i < |published| ==> published[i].batchId < clock.nextBatchId)
    }

    ghost function View(): Core
      reads this, machine, gate, actuator
    {
      Core(software, policy, machine.View(), brakeTask, releaseTask, pendingIntent, stepCount, gate.busy, readWorkers,
           actuator.View(), history)
    }

    /** Process start (`run` up to the loop): fresh machine and clock, one read-only power-limit query, seed. */
    constructor (boot: BootInput, sessionId: string, actuator: NvmlActuator, ghost past: History)
      ensures Valid() && fresh(machine) && fresh(gate) && fresh(clock) && this.actuator == actuator
      ensures View() == Started(boot, actuator.View(), past)
      ensures InFeedOrder() && published == [] && clock.View() == ClockState(sessionId, 0, None)
    {
      software, policy := boot.software, boot.policy;
      this.actuator := actuator;
      var m := new SafetyMachine.WithPolicy(boot.policy);
      var g := new Gates.NvmlGate();
      if boot.lateReader {
        var _ := g.TryEnter();
      }
      var c := new SampleClock.WithSessionId(sessionId);
      machine, gate, clock := m, g, c;
      brakeTask, releaseTask, pendingIntent, stepCount := Empty, Empty, None, 0;
      readWorkers := if boot.lateReader then 1 else 0;
      published := [];
      var seen := ClassifyPowerLimit(Read(boot.readCurrent, actuator.currentW),
                                     Read(boot.readDefault, actuator.defaultW),
                                     BRAKE_FRACTION);
      history := Then(past, Boot(boot.policy));
      new;
      if seen.RelayOwnedBrake? {
        machine.SeedBrakeApplied();
        history := Then(history, SeededAtBoot);
      }
    }

    method SpawnIntent(snap: Snapshot) returns (result: DispatchResult)
      requires Valid() && snap == SnapshotOf(machine.View())
      modifies this`brakeTask, this`releaseTask, this`history, gate
      ensures Valid()
      ensures SpawnEnd(View(), result) == Supervisors.SpawnIntent(old(View()))
    {
      if !brakeTask.Empty? || !releaseTask.Empty? {
        return AlreadyInFlight;
      }
      if snap.intent == NoIntent {
        return NothingWanted;
      }
      var entered := gate.TryEnter();
      history := Then(history, Attempt(snap.intent, entered));
      if !entered {
        return GateBusy;
      }
      if snap.intent == Apply {
        brakeTask := Running;
      } else {
        releaseTask := Running;
      }
      return Spawned;
    }

    method DispatchDueOrPending(snap: Snapshot, due: bool)
      requires Valid() && snap == SnapshotOf(machine.View())
      modifies this`pendingIntent, this`brakeTask, this`releaseTask, this`history, gate
      ensures Valid()
      ensures View() == Supervisors.DispatchDueOrPending(old(View()), due)
    {
      if pendingIntent != Some(snap.intent) {
        pendingIntent := None;
      }
      if !due && pendingIntent.None? {
        return;
      }
      var result := SpawnIntent(snap);
      pendingIntent := if result == GateBusy then Some(snap.intent) else None;
    }

    /** The blocking actuation worker returns: its effect, its result, its permit. */
    method WorkerReturns(input: JobInput)
      requires Valid()
      modifies this`brakeTask, this`releaseTask, gate, actuator
      ensures Valid()
      ensures View() == WorkerStep(old(View()), input)
    {
      if brakeTask.Running? {
        var result := actuator.ApplyEmergencyBrake(BRAKE_FRACTION, input);
        gate.DropPermit();
        brakeTask := Returned(if input.panics then Failure(TaskPanicked) else result);
      } else if releaseTask.Running? {
        var result := actuator.ReleaseEmergencyBrake(input);
        gate.DropPermit();
        releaseTask := Returned(if input.panics then Failure(TaskPanicked) else result);
      }
    }

    /** The runtime notices that the worker is done. */
    method TaskFinishes()
      requires Valid()
      modifies this`brakeTask, this`releaseTask
      ensures Valid() && View() == TaskStep(old(View()))
    {
      if brakeTask.Returned? {
        brakeTask := Finished(brakeTask.result);
      } else if releaseTask.Returned? {
        releaseTask := Finished(releaseTask.result);
      }
    }

    method Environment(awaiting: bool, events: seq<EnvEvent>)
      requires Valid() && (awaiting ==> readWorkers >= 1)
      modifies this`brakeTask, this`releaseTask, this`readWorkers, gate, actuator
      ensures Valid() && (awaiting ==> readWorkers >= 1)
      ensures View() == EnvSteps(old(View()), awaiting, events)
    {
      var k := 0;
      while k < |events|
        invariant 0 <= k <= |events|
        invariant Valid() && (awaiting ==> readWorkers >= 1)
        invariant EnvSteps(View(), awaiting, events[k..]) == EnvSteps(old(View()), awaiting, events)
      {
        assert events[k..][1..] == events[k + 1..];
        match events[k] {
          case WorkerReturns(input) =>
            WorkerReturns(input);
          case TaskFinishes =>
            TaskFinishes();
          case LateReaderReturns =>
            if readWorkers > if awaiting then 1 else 0 {
              gate.DropPermit();
              readWorkers := readWorkers - 1;
            }
        }
        k := k + 1;
      }
    }

    /** One bounded acquisition: busy and timed-out reads count as an unavailable device. */
    method AcquireRaw(during: seq<EnvEvent>, result: ReadResult) returns (from: Acquisition, ghost reading: Reading)
      requires Valid()
      modifies this`brakeTask, this`releaseTask, this`readWorkers, gate, actuator
      ensures Valid()
      ensures var holds := ReadTakesPermit(old(View()));
              var waited := EnvSteps(StartRead(old(View())), holds, during);
              && View() == EndRead(waited, holds, result)
              && reading == Acquired(waited, holds, result) && from == reading.from
    {
      if software {
        Environment(false, during);
        return SIMULATED.from, SIMULATED;
      }
      var entered := gate.TryEnter();
      if entered {
        readWorkers := readWorkers + 1;
      }
      Environment(entered, during);
      if !entered || result.ReadTimedOut? {
        return UNAVAILABLE.from, UNAVAILABLE;
      }
      gate.DropPermit();
      readWorkers := readWorkers - 1;
      from := if result.ReadValue? then result.from else UNAVAILABLE.from;
      reading := if result.ReadValue? then ReadingOf(from, policy) else UNAVAILABLE;
    }

    /** Every acquisition is stamped, whether or not it is going to be used. */
    method Assess(from: Acquisition) returns (frame: TelemetryFrame)
      requires InFeedOrder() && clock.nextBatchId < U64_MAX
      modifies clock
      ensures InFeedOrder() && clock.nextBatchId == old(clock.nextBatchId) + 1
      ensures frame.batchId == old(clock.nextBatchId) && frame.source == from.raw.source
      ensures Classify(frame, policy) == ReadingOf(from, policy).kind
    {
      VerdictOfFrame(from, policy, clock.View());
      frame := AssessWithClock(from.raw, from.now, from.cadenceMs, clock);
    }

    /** Hands the frame to the publisher; the loop does not wait for it or look at the result. */
    method Publish(frame: TelemetryFrame)
      requires InFeedOrder() && frame.batchId < clock.nextBatchId
      requires forall i :: 0 <= i < |published| ==> published[i].batchId < frame.batchId
      modifies this`published
      ensures InFeedOrder() && published == old(published) + [frame]
    {
      published := published + [frame];
    }

    /** Acquire, then stamp and assess. */
    method ReadFrame(during: seq<EnvEvent>, result: ReadResult) returns (frame: TelemetryFrame, ghost reading: Reading)
      requires Valid() && InFeedOrder() && clock.nextBatchId < U64_MAX
      modifies this`brakeTask, this`releaseTask, this`readWorkers, clock, gate, actuator
      ensures Valid()
      ensures var holds := ReadTakesPermit(old(View()));
              var waited := EnvSteps(StartRead(old(View())), holds, during);
              View() == EndRead(waited, holds, result) && reading == Acquired(waited, holds, result)
      ensures InFeedOrder() && clock.nextBatchId == old(clock.nextBatchId) + 1
      ensures frame.batchId == old(clock.nextBatchId) && frame.source == reading.from.raw.source
      ensures Classify(frame, policy) == reading.kind
    {
      ghost var holds := ReadTakesPermit(View());
      AcquiredIsGenuine(EnvSteps(StartRead(View()), holds, during), holds, result);
      var from;
      from, reading := AcquireRaw(during, result);
      frame := Assess(from);
    }

    method RecordActuator(outcome: ActuatorOutcome)
      requires Valid()
      modifies this`history, machine
      ensures Valid() && View() == Report(old(View()), outcome)
    {
      var _ := machine.RecordActuator(outcome);
      history := Then(history, Reported(outcome));
    }

    method EvaluateThenTryPublish(frame: TelemetryFrame, ghost reading: Reading) returns (snap: Snapshot)
      requires Valid() && InFeedOrder() && Classify(frame, policy) == reading.kind
      requires frame.batchId < clock.nextBatchId
      requires forall i :: 0 <= i < |published| ==> published[i].batchId < frame.batchId
      modifies this`history, this`published, machine
      ensures Valid() && View() == Judge(old(View()), reading)
      ensures snap == Evaluated(old(machine.View()), reading.kind).snap
      ensures InFeedOrder() && published == old(published) + [frame]
    {
      history := Then(history, Judged(reading, machine.brakeEngaged));
      snap := machine.Evaluate(frame);
      Publish(frame);
    }

    method ReassessAfterActuation(outcome: ActuatorOutcome, during: seq<EnvEvent>, result: ReadResult)
      requires Valid() && InFeedOrder() && clock.nextBatchId < U64_MAX
      modifies this, machine, clock, gate, actuator
      ensures Valid()
      ensures var recorded := Report(old(View()), outcome);
              var holds := ReadTakesPermit(recorded);
              View() == Reassess(EnvSteps(StartRead(recorded), holds, during), holds, result)
      ensures InFeedOrder() && clock.nextBatchId == old(clock.nextBatchId) + 1
      ensures |published| == |old(published)| + 1 && old(published) == published[..|old(published)|]
      ensures published[|old(published)|].batchId == old(clock.nextBatchId)
    {
      RecordActuator(outcome);
      var frame, reading := ReadFrame(during, result);
      var _ := EvaluateThenTryPublish(frame, reading);
    }

    /** Top of the loop: a blocked Apply goes first. */
    method RetryBlockedApply()
      requires Valid()
      modifies this`stepCount, this`pendingIntent, this`brakeTask, this`releaseTask, this`history, gate
      ensures Valid() && View() == BeginDispatch(old(View()))
    {
      stepCount := stepCount + 1;
      if pendingIntent == Some(Apply) {
        DispatchDueOrPending(SnapshotOf(machine.View()), false);
      }
    }

    /** Then the tick's frame is read and stamped. */
    method BeginAndRead(i: TickInput) returns (frame: TelemetryFrame, ghost reading: Reading)
      requires Valid() && InFeedOrder() && clock.nextBatchId < U64_MAX
      modifies this`stepCount, this`pendingIntent, this`brakeTask, this`releaseTask, this`readWorkers, this`history
      modifies clock, gate, actuator
      ensures Valid() && State(CollectingBrake(reading), View()) == AfterRead(old(View()), i)
      ensures InFeedOrder() && clock.nextBatchId == old(clock.nextBatchId) + 1
      ensures frame.batchId == old(clock.nextBatchId) && frame.source == reading.from.raw.source
      ensures Classify(frame, policy) == reading.kind
    {
      RetryBlockedApply();
      Environment(false, i.beforeRead);
      frame, reading := ReadFrame(i.duringRead, i.read);
    }

    method CollectFinishedBrake(ghost reading: Reading, i: TickInput) returns (evaluated: bool, failed: bool, due: bool)
      requires Valid() && InFeedOrder() && clock.nextBatchId < U64_MAX
      modifies this, machine, clock, gate, actuator
      ensures Valid()
      ensures State(CollectingRelease(reading, Flags(evaluated, failed, due)), View())
           == AfterBrake(old(View()), reading, i)
      ensures InFeedOrder() && old(clock.nextBatchId) <= clock.nextBatchId <= old(clock.nextBatchId) + 1
      ensures if evaluated then |published| > |old(published)| && published[..|old(published)|] == old(published)
              else published == old(published)
    {
      Environment(false, i.beforeBrake);
      evaluated, failed, due := false, false, false;
      if brakeTask.Finished? {
        var result := brakeTask.result;
        brakeTask := Empty;
        match result {
          case Success(_) =>
            ReassessAfterActuation(Applied, i.duringBrake, i.brakeRead);
            due, evaluated := true, true;
          case Failure(error) =>
            RecordActuator(ApplyFailed(error));
            failed := true;
        }
      }
    }

    method CollectFinishedRelease(ghost reading: Reading, evaluated0: bool, failed0: bool, due0: bool, i: TickInput)
      returns (evaluated: bool, failed: bool, due: bool)
      requires Valid() && InFeedOrder() && clock.nextBatchId < U64_MAX
      modifies this, machine, clock, gate, actuator
      ensures Valid()
      ensures State(Finishing(reading, Flags(evaluated, failed, due)), View())
           == AfterRelease(old(View()), reading, Flags(evaluated0, failed0, due0), i)
      ensures InFeedOrder() && old(clock.nextBatchId) <= clock.nextBatchId <= old(clock.nextBatchId) + 1
      ensures |published| >= |old(published)| && published[..|old(published)|] == old(published)
      ensures !evaluated ==> !evaluated0 && published == old(published)
      ensures evaluated && !evaluated0 ==> |published| > |old(published)|
    {
      Environment(false, i.beforeRelease);
      evaluated, failed, due := evaluated0, failed0, due0;
      if releaseTask.Finished? {
        var result := releaseTask.result;
        releaseTask := Empty;
        match result {
          case Success(_) =>
            ReassessAfterActuation(Released, i.duringRelease, i.releaseRead);
            due, evaluated := true, true;
          case Failure(error) =>
            RecordActuator(ReleaseFailed(error));
            failed := true;
        }
      }
    }

    /** The tick's own frame is evaluated on the cadence, and published unless a re-read frame already was. */
    method EvaluateAndDispatch(frame: TelemetryFrame, ghost reading: Reading, evaluated: bool, failed: bool, due0: bool)
      requires Valid() && InFeedOrder() && frame.batchId < clock.nextBatchId
      requires Classify(frame, policy) == reading.kind && frame.source == reading.from.raw.source
      requires !evaluated ==> forall i :: 0 <= i < |published| ==> published[i].batchId < frame.batchId
      modifies this, machine, gate
      ensures Valid()
      ensures View() == Finish(old(View()), reading, Flags(evaluated, failed, due0))
      ensures InFeedOrder() && published == old(published) + if evaluated then [] else [frame]
    {
      var due := due0;
      if !evaluated && ShouldEvaluateTick(stepCount, frame.source) {
        var prior := SnapshotOf(machine.View()).intent;
        var snap := EvaluateThenTryPublish(frame, reading);
        due := ShouldDispatchIntent(stepCount, prior, snap.intent, failed);
      } else if !evaluated {
        Publish(frame);
      }
      DispatchDueOrPending(SnapshotOf(machine.View()), due);
    }

    /**
     * One pass through the loop body. Besides being one `Tick`, it publishes at
     * least one new frame, and all ever published carry strictly increasing ids.
     */
    method Iterate(i: TickInput)
      requires Valid() && InFeedOrder() && clock.nextBatchId + 3 <= U64_MAX
      modifies this, machine, clock, gate, actuator
      ensures Valid()
      ensures View() == Tick(old(View()), i)
      ensures InFeedOrder() && clock.nextBatchId <= old(clock.nextBatchId) + 3
      ensures |published| > |old(published)| && published[..|old(published)|] == old(published)
    {
      var frame, reading := BeginAndRead(i);
      CollectAndDispatch(frame, reading, i, View());
      Environment(false, i.duringSleep);
    }

    /** The second half of a pass, from the collection of finished tasks to the dispatch. */
    method CollectAndDispatch(frame: TelemetryFrame, ghost reading: Reading, i: TickInput, ghost c: Core)
      requires Valid() && InFeedOrder() && clock.nextBatchId + 2 <= U64_MAX && c == View()
      requires frame.batchId < clock.nextBatchId
      requires forall k :: 0 <= k < |published| ==> published[k].batchId < frame.batchId
      requires Classify(frame, policy) == reading.kind && frame.source == reading.from.raw.source
      modifies this, machine, clock, gate, actuator
      ensures Valid()
      ensures View() == Dispatched(c, reading, i)
      ensures InFeedOrder() && clock.nextBatchId <= old(clock.nextBatchId) + 2
      ensures |published| > |old(published)| && published[..|old(published)|] == old(published)
    {
      var evaluated, failed, due := CollectFinishedBrake(reading, i);
      ghost var s2 := AfterBrake(c, reading, i);
      assert State(CollectingRelease(reading, Flags(evaluated, failed, due)), View()) == s2;
      evaluated, failed, due := CollectFinishedRelease(reading, evaluated, failed, due, i);
      Environment(false, i.beforeDispatch);
      EvaluateAndDispatch(frame, reading, evaluated, failed, due);
    }

    /** Orderly shutdown of the actuation side: bounded joins, no new command. */
    method PerformOrderlyShutdown(join: JobInput, timedOut: bool) returns (plan: ShutdownPlan)
      requires Valid()
      modifies this, machine, gate, actuator
      ensures Valid()
      ensures plan == PlanShutdown(SnapshotOf(old(machine.View())), InFlight(old(View())))
      ensures View() == Shutdown(old(View()), join, timedOut)
    {
      var inFlight := if !brakeTask.Empty? then ApplyInFlight
                      else if !releaseTask.Empty? then ReleaseInFlight else NoneInFlight;
      plan := PlanShutdown(SnapshotOf(machine.View()), inFlight);
      match plan.actuation {
        case LeaveIdle =>
        case AwaitApply =>
          if !brakeTask.Finished? && !timedOut {
            AwaitTask(join);
          }
          JoinBrakeTask();
        case AwaitAuthorizedRelease =>
          if !releaseTask.Finished? && !timedOut {
            AwaitTask(join);
          }
          JoinReleaseTask();
      }
    }

    method AwaitTask(join: JobInput)
      requires Valid()
      modifies this`brakeTask, this`releaseTask, gate, actuator
      ensures Valid() && View() == TaskStep(WorkerStep(old(View()), join))
    {
      WorkerReturns(join);
      TaskFinishes();
    }

    method JoinBrakeTask()
      requires Valid()
      modifies this, machine
      ensures Valid() && View() == JoinApply(old(View()))
    {
      if brakeTask.Finished? {
        var result := brakeTask.result;
        brakeTask := Empty;
        RecordActuator(ApplyOutcome(result));
      }
    }

    method JoinReleaseTask()
      requires Valid()
      modifies this, machine
      ensures Valid() && View() == JoinRelease(old(View()))
    {
      if releaseTask.Finished? {
        var result := releaseTask.result;
        releaseTask := Empty;
        RecordActuator(ReleaseOutcome(result));
      }
    }
  }

  // ---- start-up --------------------------------------------------------------------------

  datatype StartError = BadPolicy(error: PolicyError) | StepIntervalTooLong

  /** The default the policy is resolved against: none under software-only telemetry. */
  function PolicyDefault(software: bool, defaultW: Option<Watts>): Option<F32> {
    if software || defaultW.None? then None else Some(Finite(defaultW.value as real))
  }

  /** Everything that is decided before the loop, and whether the process gets there at all. */
  function StartOutcome(cfg: SafetyPolicyConfig, stepIntervalMs: nat, software: bool, defaultW: Option<Watts>)
    : (r: Result<SafetyPolicy, StartError>)
    ensures r.Success? ==> WellFormed(r.value)
  {
    if Resolve(cfg, None).Failure? then Failure(BadPolicy(Resolve(cfg, None).error))
    else if stepIntervalMs > cfg.maxAcquisitionIntervalMs || SatMul64(stepIntervalMs, 10) > cfg.maxSampleAgeMs then
      Failure(StepIntervalTooLong)
    else match Resolve(cfg, PolicyDefault(software, defaultW))
      case Failure(error) => Failure(BadPolicy(error))
      case Success(policy) =>
        ResolvedPoliciesAreTheWellFormedOnes(policy);
        assert cfg == policy.config;
        Success(policy)
  }

  /**
   * A process that starts has a cadence under which frames can be healthy: what
   * is evaluated every tenth iteration stays within the age limit of its policy,
   * and an explicit critical power never exceeds the queried default.
   */
  lemma StartedCadenceIsAdmissible(cfg: SafetyPolicyConfig, stepIntervalMs: nat, software: bool,
                                   defaultW: Option<Watts>)
    requires StartOutcome(cfg, stepIntervalMs, software, defaultW).Success?
    ensures var policy := StartOutcome(cfg, stepIntervalMs, software, defaultW).value;
            && policy.config == cfg
            && 10 * stepIntervalMs <= cfg.maxSampleAgeMs && Max(stepIntervalMs, 1) <= cfg.maxAcquisitionIntervalMs
            && (!software && defaultW.Some? ==>
                  && policy.powerLimitsW.Some? && policy.powerLimitsW.value.1.Finite?
                  && policy.powerLimitsW.value.1.r <= defaultW.value as real)
  {
    if !software && defaultW.Some? {
      CriticalPowerNeverExceedsTheDevice(cfg, Finite(defaultW.value as real));
    }
  }

  /** Which starts succeed, in terms of the configuration, the step interval and the queried default. */
  lemma StartsExactly(cfg: SafetyPolicyConfig, stepIntervalMs: nat, software: bool, defaultW: Option<Watts>)
    ensures var r := StartOutcome(cfg, stepIntervalMs, software, defaultW);
            var seen := if software || defaultW.None? then None else Some(Finite(defaultW.value as real));
            && (r.Success? <==>
                  && Acceptable(cfg, None) && Acceptable(cfg, seen)
                  && stepIntervalMs <= cfg.maxAcquisitionIntervalMs && 10 * stepIntervalMs <= cfg.maxSampleAgeMs)
            && (r == Failure(StepIntervalTooLong) <==>
                  && Acceptable(cfg, None)
                  && (stepIntervalMs > cfg.maxAcquisitionIntervalMs || 10 * stepIntervalMs > cfg.maxSampleAgeMs))
            && (r.Success? ==>
                  && r.value.config == cfg
                  && (cfg.powerWarnW.Some? ==> r.value.powerLimitSource == Operator)
                  && (cfg.powerWarnW.None? && seen.Some? ==> r.value.powerLimitsW.value.1 == seen.value)
                  && (cfg.powerWarnW.None? && seen.None? ==> r.value.powerLimitsW == None))
  {
    ResolvedExactly(cfg, None);
    ResolvedExactly(cfg, PolicyDefault(software, defaultW));
  }

  /** `prepare` and `run` up to the loop: validate, query the limits once, resolve against the device, start. */
  method StartSupervisor(cfg: SafetyPolicyConfig, stepIntervalMs: nat, software: bool, readCurrent: bool,
                         readDefault: bool,
                         lateReader: bool, sessionId: string, actuator: NvmlActuator, ghost past: History)
    returns (started: Result<Supervisor, StartError>)
    ensures var outcome := StartOutcome(cfg, stepIntervalMs, software, Read(readDefault, actuator.defaultW));
            if outcome.Failure? then started == Failure(outcome.error)
            else
              && started.Success? && fresh(started.value) && started.value.Valid() && started.value.InFeedOrder()
              && started.value.actuator == actuator
              && started.value.View()
                 == Started(BootInput(outcome.value, software, readCurrent, readDefault, lateReader),
                            actuator.View(), past)
  {
    var outcome := StartOutcome(cfg, stepIntervalMs, software, Read(readDefault, actuator.defaultW));
    if outcome.Failure? {
      return Failure(outcome.error);
    }
    var boot := BootInput(outcome.value, software, readCurrent, readDefault, lateReader);
    var supervisor := new Supervisor(boot, sessionId, actuator, past);
    return Success(supervisor);
  }
}
