/**
 * Claim and hardware: with a readable startup query, truthful commands and no
 * external writer, `brake_engaged` is what the register says. Shutdown and
 * restart keep it that way.
 */
module SupervisorAgreement {
  import opened Prelude
  import opened PowerLimits
  import opened SafetyMachines
  import opened Supervisors
  import opened SupervisorSafety

  predicate ReadableBoot(boot: BootInput) {
    boot.readCurrent && boot.readDefault
  }

  predicate TruthfulEvent(e: Event) {
    match e
    case Environment(WorkerReturns(input)) => Truthful(input)
    case Signal(input, _) => Truthful(input)
    case Crash(input, boot) => Truthful(input) && ReadableBoot(boot)
    case _ => true
  }

  ghost predicate TruthfulRun(events: seq<Event>) {
    forall i :: 0 <= i < |events| ==> TruthfulEvent(events[i])
  }

  /** A slot tells where the register stands relative to the brake band. */
  ghost predicate SlotsMatchBand(c: Core) {
    var band := InBrakeBand(c.dev);
    && (c.brake.Empty? && c.release.Empty? ==> (c.m.brakeEngaged <==> band))
    && (c.brake.Running? ==> !band)
    && (c.brake.Returned? || c.brake.Finished? ==> (band <==> c.brake.result.Success?))
    && (c.release.Running? ==> band)
    && (c.release.Returned? || c.release.Finished? ==> (band <==> c.release.result.Failure?))
  }

  lemma StartedAgrees(boot: BootInput, dev: Device, h: History)
    requires ReadableBoot(boot)
    ensures SlotsMatchBand(Started(boot, dev, h))
  {
  }

  /** A process claims a brake at its start exactly when it can read both limits and they show the relay's own. */
  lemma StartsClaimingExactly(boot: BootInput, dev: Device, h: History)
    ensures var c := Started(boot, dev, h);
            && (c.m.brakeEngaged <==> boot.readCurrent && boot.readDefault && InBrakeBand(dev))
            && c.m.lastPolicyState == (if c.m.brakeEngaged then Recovering else TelemetryMissing)
            && c.dev == dev && c.step == 0 && c.pending == None && c.brake.Empty? && c.release.Empty?
            && Intent(c.m) == (if c.m.brakeEngaged then NoIntent else Apply)
            && c.policy == boot.policy && c.software == boot.software
  {
    assert SessionPolicy(Then(h, Boot(boot.policy))) == Some(boot.policy);
  }

  lemma WorkerAgrees(c: Core, input: JobInput)
    requires SlotsMatchBand(c) && (c.brake.Empty? || c.release.Empty?) && Truthful(input)
    ensures SlotsMatchBand(WorkerStep(c, input))
  {
    ApplyJobEffect(c.dev, input);
    ReleaseJobEffect(c.dev, input);
  }

  lemma ReportAgrees(c: Core, outcome: ActuatorOutcome)
    requires c.brake.Empty? && c.release.Empty?
    requires match outcome
             case Applied => InBrakeBand(c.dev)
             case ApplyFailed(_) => !InBrakeBand(c.dev)
             case Released => !InBrakeBand(c.dev)
             case ReleaseFailed(_) => c.m.brakeEngaged && InBrakeBand(c.dev)
    ensures SlotsMatchBand(Report(c, outcome))
  {
  }

  lemma DispatchAgrees(c: Core, due: bool)
    requires CoreInv(c, false) && VerdictFits(c) && SlotsMatchBand(c)
    ensures SlotsMatchBand(DispatchDueOrPending(c, due))
  {
    ReleaseIntentMeansFullStreak(c);
  }

  lemma CollectAgrees(s: State)
    requires Inv(s) && SlotsMatchBand(s.c)
    requires s.pc.CollectingBrake? || s.pc.CollectingRelease?
    ensures SlotsMatchBand(Step(s, Proceed).c)
  {
    var c := s.c;
    if s.pc.CollectingBrake? && c.brake.Finished? {
      ReportAgrees(c.(brake := Empty), ApplyOutcome(c.brake.result));
    }
    if s.pc.CollectingRelease? && c.release.Finished? {
      ReportAgrees(c.(release := Empty), ReleaseOutcome(c.release.result));
    }
  }

  lemma FinishAgrees(c: Core, reading: Reading, flags: Flags)
    requires CoreInv(c, false) && VerdictFits(c) && SlotsMatchBand(c)
    ensures SlotsMatchBand(Finish(c, reading, flags))
  {
    JudgeInv(c, reading, false);
    DispatchAgrees(FinishJudge(c, reading, flags), FinishDue(c, reading, flags));
  }

  /** Neither the iteration counter nor a read in progress concerns the slots or the register. */
  lemma CountingAgrees(c: Core)
    requires SlotsMatchBand(c)
    ensures SlotsMatchBand(c.(step := c.step + 1))
  {
  }

  lemma StartReadAgrees(c: Core)
    requires SlotsMatchBand(c)
    ensures SlotsMatchBand(StartRead(c))
  {
  }

  lemma BeginDispatchAgrees(c: Core)
    requires CoreInv(c, false) && VerdictFits(c) && SlotsMatchBand(c)
    ensures SlotsMatchBand(BeginDispatch(c))
  {
    CountingInv(c);
    CountingAgrees(c);
    DispatchAgrees(c.(step := c.step + 1), false);
  }

  lemma JoinAgrees(c: Core)
    requires CoreInv(c, false) && SlotsMatchBand(c)
    ensures SlotsMatchBand(JoinApply(c)) && SlotsMatchBand(JoinRelease(c))
  {
    if c.brake.Finished? {
      ReportAgrees(c.(brake := Empty), ApplyOutcome(c.brake.result));
    }
    if c.release.Finished? {
      ReportAgrees(c.(release := Empty), ReleaseOutcome(c.release.result));
    }
  }

  /** Waiting for a task is letting its worker return and the task finish. */
  lemma AwaitedAgrees(c: Core, input: JobInput)
    requires CoreInv(c, false) && SlotsMatchBand(c) && Truthful(input)
    ensures CoreInv(TaskStep(WorkerStep(c, input)), false) && SlotsMatchBand(TaskStep(WorkerStep(c, input)))
  {
    WorkerAgrees(c, input);
    WorkerInv(c, false, input);
    TaskInv(WorkerStep(c, input), false);
  }

  lemma ShutdownAgrees(c: Core, input: JobInput, timedOut: bool)
    requires CoreInv(c, false) && SlotsMatchBand(c) && Truthful(input)
    ensures SlotsMatchBand(Shutdown(c, input, timedOut))
  {
    JoinAgrees(c);
    AwaitedAgrees(c, input);
    JoinAgrees(TaskStep(WorkerStep(c, input)));
  }

  lemma ProceedAgrees(s: State)
    requires Inv(s) && SlotsMatchBand(s.c)
    ensures SlotsMatchBand(Step(s, Proceed).c)
  {
    match s.pc
    case Idle => BeginDispatchAgrees(s.c);
    case Starting => StartReadAgrees(s.c);
    case CollectingBrake(_) => CollectAgrees(s);
    case CollectingRelease(_, _) => CollectAgrees(s);
    case Finishing(reading, flags) => FinishAgrees(s.c, reading, flags);
    case _ =>
  }

  /** Nor does a frame that has been read, nor the verdict on it. */
  lemma ReadEndsAgrees(s: State, result: ReadResult)
    requires SlotsMatchBand(s.c)
    ensures SlotsMatchBand(Step(s, ReadEnds(result)).c)
  {
    var holds := Holds(s.pc);
    JudgeAgrees(EndRead(s.c, holds, result), Acquired(s.c, holds, result));
  }

  lemma JudgeAgrees(c: Core, reading: Reading)
    requires SlotsMatchBand(c)
    ensures SlotsMatchBand(Judge(c, reading))
  {
  }

  lemma StepAgrees(s: State, e: Event)
    requires Inv(s) && SlotsMatchBand(s.c) && TruthfulEvent(e)
    ensures SlotsMatchBand(Step(s, e).c)
  {
    match e
    case Proceed => ProceedAgrees(s);
    case ReadEnds(result) => ReadEndsAgrees(s, result);
    case Environment(env) =>
      if env.WorkerReturns? {
        WorkerAgrees(s.c, env.input);
      }
    case Signal(input, timedOut) =>
      if s.pc.Idle? {
        ShutdownAgrees(s.c, input, timedOut);
      }
    case Crash(input, boot) => StartedAgrees(boot, WorkerStep(s.c, input).dev, s.c.h);
  }

  lemma {:induction false} RunAgrees(s: State, events: seq<Event>)
    requires Inv(s) && SlotsMatchBand(s.c) && TruthfulRun(events)
    ensures SlotsMatchBand(Run(s, events).c)
    decreases |events|
  {
    if events != [] {
      StepInv(s, events[0]);
      StepAgrees(s, events[0]);
      RunAgrees(Step(s, events[0]), events[1..]);
    }
  }

  /**
   * In every reachable state with no actuation outstanding, the machine claims
   * an engaged brake exactly when the limit is within 2 W of the relay's target.
   */
  lemma ClaimMatchesHardware(boot: BootInput, dev: Device, events: seq<Event>)
    requires ReadableBoot(boot) && TruthfulRun(events)
    ensures var c := Run(Initial(boot, dev), events).c;
            var target := UnambiguousBrakeTarget(dev.defaultW, BRAKE_FRACTION);
            && (c.brake.Empty? && c.release.Empty? ==>
                  (c.m.brakeEngaged <==>
                     target.Some? && AbsDiff(c.dev.currentW, target.value) <= BRAKE_MATCH_TOLERANCE_W))
            && (!c.brake.Empty? ==> !c.m.brakeEngaged)
            && (!c.release.Empty? ==> c.m.brakeEngaged)
  {
    ReachableInv(boot, dev, events);
    StartedInv(boot, dev, Start);
    StartedAgrees(boot, dev, Start);
    RunAgrees(Initial(boot, dev), events);
    DeviceTrail(Initial(boot, dev), events);
  }

  // ---- shutdown and restart -----------------------------------------------------------

  /** What the shutdown plan says, in terms of the claim and the slots, in every run. */
  lemma PlanSaysWhatIsLeft(boot: BootInput, dev: Device, events: seq<Event>)
    ensures var c := Run(Initial(boot, dev), events).c;
            var plan := PlanShutdown(SnapshotOf(c.m), InFlight(c));
            && (plan.leaveBrakeEngaged <==> c.m.brakeEngaged || !c.brake.Empty?)
            && (plan.actuation == AwaitApply <==> !c.brake.Empty?)
            && (plan.actuation == AwaitAuthorizedRelease <==> !c.release.Empty?)
            && (plan.actuation == LeaveIdle <==> c.brake.Empty? && c.release.Empty?)
            && (plan.unresolvedBrake <==> plan.leaveBrakeEngaged || Intent(c.m) == Apply)
            && (plan.unresolvedActuator <==> c.m.lastActuatorError.Some?)
  {
    ReachableInv(boot, dev, events);
  }

  /** The result of the task a shutdown waits for: the one it has, or the one its worker comes back with. */
  function AwaitedResult(slot: Slot, end: JobResult): JobResult {
    if slot.Returned? || slot.Finished? then slot.result else end
  }

  /** What a shutdown records: the outcome of the task in flight, if it is there or the wait did not time out. */
  lemma ShutdownRecords(boot: BootInput, dev: Device, events: seq<Event>, input: JobInput, timedOut: bool)
    ensures var c := Run(Initial(boot, dev), events).c;
            var c' := Shutdown(c, input, timedOut);
            && (c.brake.Empty? && c.release.Empty? ==> c'.h == c.h)
            && (!c.brake.Empty? ==>
                  c'.h == if timedOut && !c.brake.Finished? then c.h
                          else match AwaitedResult(c.brake, ApplyJob(c.dev, input).result)
                            case Success(_) => Then(c.h, Reported(Applied))
                            case Failure(error) => Then(c.h, Reported(ApplyFailed(error))))
            && (!c.release.Empty? ==>
                  c'.h == if timedOut && !c.release.Finished? then c.h
                          else match AwaitedResult(c.release, ReleaseJob(c.dev, input).result)
                            case Success(_) => Then(c.h, Reported(Released))
                            case Failure(error) => Then(c.h, Reported(ReleaseFailed(error))))
  {
    ReachableInv(boot, dev, events);
    ShutdownRecordsOf(Run(Initial(boot, dev), events).c, input, timedOut);
  }

  lemma ShutdownRecordsOf(c: Core, input: JobInput, timedOut: bool)
    requires c.brake.Empty? || c.release.Empty?
    ensures var c' := Shutdown(c, input, timedOut);
            && (c.brake.Empty? && c.release.Empty? ==> c'.h == c.h)
            && (!c.brake.Empty? ==>
                  c'.h == if timedOut && !c.brake.Finished? then c.h
                          else match AwaitedResult(c.brake, ApplyJob(c.dev, input).result)
                            case Success(_) => Then(c.h, Reported(Applied))
                            case Failure(error) => Then(c.h, Reported(ApplyFailed(error))))
            && (!c.release.Empty? ==>
                  c'.h == if timedOut && !c.release.Finished? then c.h
                          else match AwaitedResult(c.release, ReleaseJob(c.dev, input).result)
                            case Success(_) => Then(c.h, Reported(Released))
                            case Failure(error) => Then(c.h, Reported(ReleaseFailed(error))))
  {
  }

  /**
   * From any reachable state, however the join ends: orderly shutdown attempts
   * nothing new, and a brake on the hardware stays in its band unless a release
   * was already in flight.
   */
  lemma ShutdownStartsNothing(boot: BootInput, dev: Device, events: seq<Event>, input: JobInput, timedOut: bool)
    ensures var c := Run(Initial(boot, dev), events).c;
            var c' := Shutdown(c, input, timedOut);
            && AttemptLog(c'.h) == AttemptLog(c.h)
            && Live(c'.brake) <= Live(c.brake) && Live(c'.release) <= Live(c.release)
            && (InBrakeBand(c.dev) && c.release.Empty? ==> InBrakeBand(c'.dev))
            && (c.brake.Empty? && c.release.Empty? ==> c' == c)
  {
    ReachableInv(boot, dev, events);
    ShutdownOf(Run(Initial(boot, dev), events).c, input, timedOut);
  }

  lemma ShutdownOf(c: Core, input: JobInput, timedOut: bool)
    requires c.brake.Empty? || c.release.Empty?
    ensures var c' := Shutdown(c, input, timedOut);
            && AttemptLog(c'.h) == AttemptLog(c.h)
            && Live(c'.brake) <= Live(c.brake) && Live(c'.release) <= Live(c.release)
            && (InBrakeBand(c.dev) && c.release.Empty? ==> InBrakeBand(c'.dev))
            && (c.brake.Empty? && c.release.Empty? ==> c' == c)
  {
    WorkerMoves(c, input);
  }

  lemma RestartFrom(s: State, join: JobInput, again: BootInput, late: JobInput)
    requires s.pc.Idle? && Inv(s) && SlotsMatchBand(s.c) && Truthful(join) && ReadableBoot(again)
    ensures var plan := PlanShutdown(SnapshotOf(s.c.m), InFlight(s.c));
            var stopped := Step(s, Signal(join, false));
            var restarted := Step(stopped, Crash(late, again));
            && restarted.c.m.brakeEngaged == stopped.c.m.brakeEngaged == InBrakeBand(restarted.c.dev)
            && restarted.c.dev == stopped.c.dev
            && restarted.c.m.okCount == 0
            && Intent(restarted.c.m) != Release
            && (!plan.leaveBrakeEngaged ==> !InBrakeBand(stopped.c.dev))
  {
    ShutdownInv(s.c, join, false);
    ShutdownAgrees(s.c, join, false);
    ShutdownEmptiesSlots(s.c, join);
    StartedAgrees(again, Step(s, Signal(join, false)).c.dev, Step(s, Signal(join, false)).c.h);
  }

  /**
   * Shutdown whose join completes, then restart: the new process rebuilds the
   * claim the old one ended with, and has to earn the whole streak again. A plan
   * that reports no brake left behind is right about the hardware.
   */
  lemma RestartRebuildsTheClaim(boot: BootInput, dev: Device, events: seq<Event>, join: JobInput, again: BootInput,
                                late: JobInput)
    requires ReadableBoot(boot) && TruthfulRun(events) && Truthful(join) && ReadableBoot(again)
    requires Run(Initial(boot, dev), events).pc.Idle?
    ensures var s := Run(Initial(boot, dev), events);
            var plan := PlanShutdown(SnapshotOf(s.c.m), InFlight(s.c));
            var stopped := Step(s, Signal(join, false));
            var restarted := Step(stopped, Crash(late, again));
            && restarted.c.m.brakeEngaged == stopped.c.m.brakeEngaged == InBrakeBand(restarted.c.dev)
            && restarted.c.dev == stopped.c.dev
            && restarted.c.m.okCount == 0
            && Intent(restarted.c.m) != Release
            && (!plan.leaveBrakeEngaged ==> !InBrakeBand(stopped.c.dev))
  {
    ReachableInv(boot, dev, events);
    StartedInv(boot, dev, Start);
    StartedAgrees(boot, dev, Start);
    RunAgrees(Initial(boot, dev), events);
    RestartFrom(Run(Initial(boot, dev), events), join, again, late);
  }

  lemma ShutdownEmptiesSlots(c: Core, input: JobInput)
    requires CoreInv(c, false)
    ensures Shutdown(c, input, false).brake.Empty? && Shutdown(c, input, false).release.Empty?
  {
  }

  /** The worker got as far as its command, wrote the register, and still reports failure. */
  predicate WroteButReportsFailure(c: Core, input: JobInput) {
    && input.readCurrent && input.readDefault
    && (c.brake.Running? ==> Seen(c.dev).AtOrAboveDefault? && c.dev.currentW > 0)
    && (input.command == Failed(true) || (input.command == Completed && input.panics))
  }

  lemma UntruthfulWritesMisplaceTheSlot(c: Core, input: JobInput)
    requires (c.brake.Empty? || c.release.Empty?) && SlotsMatchBand(c)
    requires c.brake.Running? || c.release.Running?
    ensures SlotsMatchBand(WorkerStep(c, input)) <==> !WroteButReportsFailure(c, input)
  {
    BrakeTargetIsHalf(c.dev.defaultW);
  }

  /** The loop body collects a finished brake task, then a finished release task. */
  function Collected(c: Core, reading: Reading, flags: Flags): Core {
    CollectRelease(CollectBrake(c, reading).c, reading, flags).c
  }

  lemma CollectedClaim(c: Core, reading: Reading, flags: Flags)
    requires c.brake.Empty? || c.release.Empty?
    ensures var c' := Collected(c, reading, flags);
            && c'.dev == c.dev
            && (c.brake.Finished? ==> c'.m.brakeEngaged == c.brake.result.Success?)
            && (c.release.Finished? ==> c'.m.brakeEngaged == (c.m.brakeEngaged && c.release.result.Failure?))
  {
  }

  /**
   * Truthfulness cannot be weakened. From any state a truthful run reaches with
   * a worker out: once that worker has returned and its result is collected, the
   * claim differs from the register exactly when the worker wrote the register
   * and reported failure.
   */
  lemma ExactlyUntruthfulWritesBreakTheClaim(boot: BootInput, dev: Device, events: seq<Event>, input: JobInput,
                                             reading: Reading, flags: Flags)
    requires ReadableBoot(boot) && TruthfulRun(events)
    requires var c := Run(Initial(boot, dev), events).c; c.brake.Running? || c.release.Running?
    ensures var c := Run(Initial(boot, dev), events).c;
            var c' := Collected(TaskStep(WorkerStep(c, input)), reading, flags);
            && c'.brake.Empty? && c'.release.Empty?
            && (c'.m.brakeEngaged != InBrakeBand(c'.dev) <==> WroteButReportsFailure(c, input))
  {
    var c := Run(Initial(boot, dev), events).c;
    ReachableInv(boot, dev, events);
    StartedInv(boot, dev, Start);
    StartedAgrees(boot, dev, Start);
    RunAgrees(Initial(boot, dev), events);
    UntruthfulWritesMisplaceTheSlot(c, input);
    CollectedClaim(TaskStep(WorkerStep(c, input)), reading, flags);
  }
}
