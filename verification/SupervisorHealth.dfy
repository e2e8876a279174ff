/** The release theorem in terms of what was read from the device. */
module SupervisorHealth {
  import opened Prelude
  import opened SafetyPolicies
  import opened PowerLimits
  import opened Assessments
  import opened SafetyMachines
  import opened Supervisors
  import opened SupervisorSafety

  /** The verdict of a reading is what classification makes of its acquisition. */
  ghost predicate Genuine(reading: Reading, policy: ResolvedPolicy) {
    reading.kind == ReadingOf(reading.from, policy).kind
  }

  /** Every evaluation in the history was judged from an acquisition, under the policy of its own session. */
  ghost predicate GenuineHistory(h: History) {
    match h
    case Start => true
    case Then(past, Judged(reading, _)) =>
      GenuineHistory(past) && SessionPolicy(past).Some? && Genuine(reading, SessionPolicy(past).value)
    case Then(past, _) => GenuineHistory(past)
  }

  ghost predicate SessionFits(c: Core) {
    GenuineHistory(c.h) && SessionPolicy(c.h) == Some(c.policy)
  }

  /** The frame of the iteration in progress. */
  ghost predicate ReadingFits(s: State) {
    match s.pc
    case CollectingBrake(reading) => Genuine(reading, s.c.policy)
    case RereadingBrake(reading, _) => Genuine(reading, s.c.policy)
    case CollectingRelease(reading, _) => Genuine(reading, s.c.policy)
    case RereadingRelease(reading, _, _) => Genuine(reading, s.c.policy)
    case Finishing(reading, _) => Genuine(reading, s.c.policy)
    case _ => true
  }

  ghost predicate GenuineInv(s: State) {
    SessionFits(s.c) && ReadingFits(s)
  }

  lemma AcquiredIsGenuine(c: Core, holds: bool, result: ReadResult)
    ensures Genuine(Acquired(c, holds, result), c.policy)
  {
    DegradedReadings(0, 0, 1, c.policy);
  }

  /** Apart from evaluations and boots, nothing in the history concerns readings or the policy. */
  ghost predicate Extends(c: Core, c': Core) {
    && c'.policy == c.policy
    && SessionPolicy(c'.h) == SessionPolicy(c.h)
    && (GenuineHistory(c.h) ==> GenuineHistory(c'.h))
  }

  lemma DispatchExtends(c: Core, due: bool)
    ensures Extends(c, DispatchDueOrPending(c, due))
  {
  }

  lemma JudgeFits(c: Core, reading: Reading)
    requires SessionFits(c) && Genuine(reading, c.policy)
    ensures SessionFits(Judge(c, reading))
  {
  }

  lemma FinishFits(c: Core, reading: Reading, flags: Flags)
    requires SessionFits(c) && Genuine(reading, c.policy)
    ensures SessionFits(Finish(c, reading, flags))
  {
    JudgeFits(c, reading);
    DispatchExtends(FinishJudge(c, reading, flags), FinishDue(c, reading, flags));
  }

  lemma BeginFits(c: Core)
    requires SessionFits(c)
    ensures SessionFits(BeginDispatch(c))
  {
    DispatchExtends(c.(step := c.step + 1), false);
  }

  lemma CollectBrakeFits(c: Core, reading: Reading)
    requires SessionFits(c)
    ensures SessionFits(CollectBrake(c, reading).c) && CollectBrake(c, reading).c.policy == c.policy
  {
  }

  lemma CollectReleaseFits(c: Core, reading: Reading, flags: Flags)
    requires SessionFits(c)
    ensures SessionFits(CollectRelease(c, reading, flags).c) && CollectRelease(c, reading, flags).c.policy == c.policy
  {
  }

  lemma ProceedFits(s: State)
    requires GenuineInv(s)
    ensures GenuineInv(Step(s, Proceed))
  {
    match s.pc
    case Idle => BeginFits(s.c);
    case CollectingBrake(reading) => CollectBrakeFits(s.c, reading);
    case CollectingRelease(reading, flags) => CollectReleaseFits(s.c, reading, flags);
    case Finishing(reading, flags) => FinishFits(s.c, reading, flags);
    case _ =>
  }

  lemma ReassessFits(c: Core, holds: bool, result: ReadResult)
    requires SessionFits(c)
    ensures SessionFits(EndRead(c, holds, result)) && SessionFits(Reassess(c, holds, result))
    ensures EndRead(c, holds, result).policy == Reassess(c, holds, result).policy == c.policy
  {
    AcquiredIsGenuine(c, holds, result);
    JudgeFits(EndRead(c, holds, result), Acquired(c, holds, result));
  }

  lemma TickReadFits(c: Core, holds: bool, result: ReadResult)
    requires SessionFits(c)
    ensures GenuineInv(State(CollectingBrake(Acquired(c, holds, result)), EndRead(c, holds, result)))
  {
    AcquiredIsGenuine(c, holds, result);
  }

  lemma ReadEndsFits(s: State, result: ReadResult)
    requires GenuineInv(s)
    ensures GenuineInv(Step(s, ReadEnds(result)))
  {
    match s.pc
    case AcquiringTick(holds) => TickReadFits(s.c, holds, result);
    case RereadingBrake(_, holds) => ReassessFits(s.c, holds, result);
    case RereadingRelease(_, _, holds) => ReassessFits(s.c, holds, result);
    case _ =>
  }

  lemma JoinExtends(c: Core)
    ensures Extends(c, JoinApply(c)) && Extends(c, JoinRelease(c))
  {
  }

  lemma AwaitedExtends(c: Core, input: JobInput)
    ensures var c' := TaskStep(WorkerStep(c, input)); c'.h == c.h && c'.policy == c.policy
  {
  }

  lemma ShutdownExtends(c: Core, input: JobInput, timedOut: bool)
    ensures Extends(c, Shutdown(c, input, timedOut))
  {
    JoinExtends(c);
    AwaitedExtends(c, input);
    JoinExtends(TaskStep(WorkerStep(c, input)));
  }

  lemma StartedFits(boot: BootInput, dev: Device, h: History)
    requires GenuineHistory(h)
    ensures SessionFits(Started(boot, dev, h))
  {
    assert SessionPolicy(Then(h, Boot(boot.policy))) == Some(boot.policy);
  }

  lemma StepFits(s: State, e: Event)
    requires GenuineInv(s)
    ensures GenuineInv(Step(s, e))
  {
    match e
    case Proceed => ProceedFits(s);
    case ReadEnds(result) => ReadEndsFits(s, result);
    case Environment(_) =>
    case Signal(input, timedOut) => ShutdownExtends(s.c, input, timedOut);
    case Crash(input, boot) => StartedFits(boot, WorkerStep(s.c, input).dev, s.c.h);
  }

  lemma {:induction false} RunFits(s: State, events: seq<Event>)
    requires GenuineInv(s)
    ensures GenuineInv(Run(s, events))
    decreases |events|
  {
    if events != [] {
      StepFits(s, events[0]);
      RunFits(Step(s, events[0]), events[1..]);
    }
  }

  lemma {:induction false} GenuineBefore(before: History, h: History)
    requires QuietSince(before, h) && GenuineHistory(h)
    ensures GenuineHistory(before)
  {
    if before != h {
      GenuineBefore(before, h.past);
    }
  }

  /** Engaged evaluations all belong to the present session. */
  lemma {:induction false} EngagedAreGenuine(h: History)
    requires GenuineHistory(h)
    ensures EngagedEvaluations(h) != [] ==> SessionPolicy(h).Some?
    ensures forall i :: 0 <= i < |EngagedEvaluations(h)| ==> Genuine(EngagedEvaluations(h)[i], SessionPolicy(h).value)
  {
    match h
    case Start =>
    case Then(past, Judged(_, _)) => EngagedAreGenuine(past);
    case Then(past, Reported(_)) => EngagedAreGenuine(past);
    case Then(past, Attempt(_, _)) => EngagedAreGenuine(past);
    case _ =>
  }

  /** An Ok reading stands for an acquisition that met every health condition, and only such a one. */
  lemma OkReadingsAreHealthy(reading: Reading, policy: ResolvedPolicy)
    requires Genuine(reading, policy)
    ensures var a := reading.from;
            reading.kind == Ok <==> HealthyConditions(a.raw, a.now, a.cadenceMs, policy)
  {
    HealthAuthorisation(reading.from.raw, reading.from.now, reading.from.cadenceMs, UNSTAMPED, policy);
  }

  /**
   * No brake is lifted without the streak of healthy readings. In every run, a
   * step that takes the limit out of the brake band is the step of a release
   * worker. Its command was spawned in this session, and the last
   * `release_ok_streak` evaluations before it, all made while the brake was
   * engaged without interruption, read a real device with both values finite,
   * in range, fresh and below warning under the policy of this session.
   */
  lemma BrakeLeavesOnlyAfterHealthyReadings(boot: BootInput, dev: Device, events: seq<Event>, e: Event)
    returns (before: History)
    ensures var s := Run(Initial(boot, dev), events);
            InBrakeBand(s.c.dev) && !InBrakeBand(Step(s, e).c.dev) ==>
              && s.c.release.Running?
              && QuietSince(Then(before, Attempt(Release, true)), s.c.h)
              && SessionPolicy(s.c.h) == Some(s.c.policy)
              && var evaluations := EngagedEvaluations(before);
                 var streak := s.c.policy.config.releaseOkStreak;
                 && 1 <= streak <= |evaluations|
                 && forall i :: |evaluations| - streak <= i < |evaluations| ==>
                      var a := evaluations[i].from; HealthyConditions(a.raw, a.now, a.cadenceMs, s.c.policy)
  {
    var s := Run(Initial(boot, dev), events);
    before := BrakeLeavesOnlyByAuthorisedRelease(boot, dev, events, e);
    if InBrakeBand(s.c.dev) && !InBrakeBand(Step(s, e).c.dev) {
      RunFits(Initial(boot, dev), events);
      GenuineBefore(Then(before, Attempt(Release, true)), s.c.h);
      EngagedAreGenuine(before);
      var evaluations := EngagedEvaluations(before);
      forall i | |evaluations| - s.c.policy.config.releaseOkStreak <= i < |evaluations|
        ensures var a := evaluations[i].from; HealthyConditions(a.raw, a.now, a.cadenceMs, s.c.policy)
      {
        OkReadingsAreHealthy(evaluations[i], s.c.policy);
      }
    }
  }
}
