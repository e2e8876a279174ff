/**
 * The machine is what its history says: claim, policy state, standing error and
 * streak can be told from the recorded boots, verdicts and outcomes alone.
 */
module SupervisorHistory {
  import opened Prelude
  import opened PowerLimits
  import opened Assessments
  import opened SafetyMachines
  import opened Supervisors
  import opened SupervisorSafety
  import opened SupervisorResponse

  /** A brake is claimed from the adoption or completed apply on, until a completed release or failed apply. */
  predicate Claim(h: History) {
    match h
    case Start => false
    case Then(_, Boot(_)) => false
    case Then(_, SeededAtBoot) => true
    case Then(past, Reported(outcome)) =>
      (match outcome
       case Applied => true
       case ApplyFailed(_) => false
       case Released => false
       case ReleaseFailed(_) => Claim(past))
    case Then(past, _) => Claim(past)
  }

  /** The state that names a verdict. */
  function StateNamed(kind: AssessmentKind, engaged: bool): SafetyState {
    if kind == Critical then CriticalBraked
    else if kind == AssessmentKind.Missing then TelemetryMissing
    else if kind == AssessmentKind.Invalid then TelemetryInvalid
    else if kind == AssessmentKind.Stale then TelemetryStale
    else if kind == Warn then Warning
    else if kind == Simulated then SimulatedSoftwareOnly
    else if engaged then Recovering
    else HealthyReal
  }

  /** The last verdict of the session names the policy state; a completed release makes it healthy until the next. */
  function PolicyState(h: History): SafetyState {
    match h
    case Start => TelemetryMissing
    case Then(_, Boot(_)) => TelemetryMissing
    case Then(_, SeededAtBoot) => Recovering
    case Then(past, Judged(reading, engaged)) => StateNamed(reading.kind, engaged)
    case Then(past, Reported(outcome)) => if outcome.Released? then HealthyReal else PolicyState(past)
    case Then(past, _) => PolicyState(past)
  }

  /** The error of the last failed command, until a command succeeds or a healthy verdict is reached. */
  function StandingError(h: History): Option<ActuatorError> {
    match h
    case Start => None
    case Then(_, Boot(_)) => None
    case Then(past, Reported(outcome)) =>
      (match outcome
       case ApplyFailed(error) => Some(error)
       case ReleaseFailed(error) => Some(error)
       case _ => None)
    case Then(past, Judged(reading, engaged)) =>
      if reading.kind == Ok && !engaged then None else StandingError(past)
    case Then(past, _) => StandingError(past)
  }

  /** Every verdict was recorded with the claim that stood when it was reached. */
  predicate VerdictsKnowTheClaim(h: History) {
    match h
    case Start => true
    case Then(past, Judged(_, engaged)) => engaged == Claim(past) && VerdictsKnowTheClaim(past)
    case Then(past, _) => VerdictsKnowTheClaim(past)
  }

  ghost predicate Told(c: Core) {
    && c.m.brakeEngaged == Claim(c.h) && VerdictsKnowTheClaim(c.h)
    && c.m.lastPolicyState == PolicyState(c.h)
    && c.m.lastActuatorError == StandingError(c.h)
  }

  lemma StartedTold(boot: BootInput, dev: Device, h: History)
    requires VerdictsKnowTheClaim(h)
    ensures Told(Started(boot, dev, h))
  {
    var booted := Then(h, Boot(boot.policy));
    assert VerdictsKnowTheClaim(booted) && !Claim(booted) && StandingError(booted).None?;
  }

  lemma DispatchTold(c: Core, due: bool)
    requires Told(c)
    ensures Told(DispatchDueOrPending(c, due))
  {
  }

  lemma JudgeTold(c: Core, reading: Reading)
    requires Told(c)
    ensures Told(Judge(c, reading))
  {
    VerdictStates(c.m, reading.kind);
  }

  lemma ReportTold(c: Core, outcome: ActuatorOutcome)
    requires Told(c)
    ensures Told(Report(c, outcome))
  {
  }

  lemma FinishTold(c: Core, reading: Reading, flags: Flags)
    requires Told(c)
    ensures Told(Finish(c, reading, flags))
  {
    JudgeTold(c, reading);
    DispatchTold(FinishJudge(c, reading, flags), FinishDue(c, reading, flags));
  }

  lemma CollectBrakeTold(c: Core, reading: Reading)
    requires Told(c)
    ensures Told(CollectBrake(c, reading).c)
  {
    if c.brake.Finished? {
      ReportTold(c.(brake := Empty), ApplyOutcome(c.brake.result));
    }
  }

  lemma CollectReleaseTold(c: Core, reading: Reading, flags: Flags)
    requires Told(c)
    ensures Told(CollectRelease(c, reading, flags).c)
  {
    if c.release.Finished? {
      ReportTold(c.(release := Empty), ReleaseOutcome(c.release.result));
    }
  }

  lemma BeginTold(c: Core)
    requires Told(c)
    ensures Told(BeginDispatch(c))
  {
    DispatchTold(c.(step := c.step + 1), false);
  }

  lemma ProceedTold(s: State)
    requires Told(s.c)
    ensures Told(Step(s, Proceed).c)
  {
    match s.pc
    case Idle => BeginTold(s.c);
    case CollectingBrake(reading) => CollectBrakeTold(s.c, reading);
    case CollectingRelease(reading, flags) => CollectReleaseTold(s.c, reading, flags);
    case Finishing(reading, flags) => FinishTold(s.c, reading, flags);
    case _ =>
  }

  lemma ReadTold(c: Core, holds: bool, result: ReadResult)
    requires Told(c)
    ensures Told(EndRead(c, holds, result)) && Told(Reassess(c, holds, result))
  {
    JudgeTold(EndRead(c, holds, result), Acquired(c, holds, result));
  }

  lemma JoinTold(c: Core)
    requires Told(c)
    ensures Told(JoinApply(c)) && Told(JoinRelease(c))
  {
    if c.brake.Finished? {
      ReportTold(c.(brake := Empty), ApplyOutcome(c.brake.result));
    }
    if c.release.Finished? {
      ReportTold(c.(release := Empty), ReleaseOutcome(c.release.result));
    }
  }

  lemma ShutdownTold(c: Core, input: JobInput, timedOut: bool)
    requires Told(c)
    ensures Told(Shutdown(c, input, timedOut))
  {
    var waited := TaskStep(WorkerStep(c, input));
    assert waited.m == c.m && waited.h == c.h;
    JoinTold(c);
    JoinTold(waited);
  }

  lemma StepTold(s: State, e: Event)
    requires Told(s.c)
    ensures Told(Step(s, e).c)
  {
    match e
    case Proceed => ProceedTold(s);
    case ReadEnds(result) => ReadTold(s.c, Holds(s.pc), result);
    case Environment(_) =>
    case Signal(input, timedOut) => ShutdownTold(s.c, input, timedOut);
    case Crash(input, boot) => StartedTold(boot, WorkerStep(s.c, input).dev, s.c.h);
  }

  lemma {:induction false} RunTold(s: State, events: seq<Event>)
    requires Told(s.c)
    ensures Told(Run(s, events).c)
    decreases |events|
  {
    if events != [] {
      StepTold(s, events[0]);
      RunTold(Step(s, events[0]), events[1..]);
    }
  }

  /**
   * In every run, what the supervisor reports about itself is what its history
   * says: the claim, the state that names the last verdict, the error that
   * stands, the reported state, and the streak.
   */
  lemma SnapshotTellsTheHistory(boot: BootInput, dev: Device, events: seq<Event>)
    ensures var c := Run(Initial(boot, dev), events).c;
            var snap := SnapshotOf(c.m);
            && snap.brakeEngaged == Claim(c.h)
            && snap.policyState == PolicyState(c.h)
            && snap.lastActuatorError == StandingError(c.h)
            && snap.state == (if StandingError(c.h).Some? then ActuatorFailure else PolicyState(c.h))
            && snap.hysteresisOkCount == Min(OkStreak(c.h), U32_MAX)
            && VerdictsKnowTheClaim(c.h)
  {
    var c := Run(Initial(boot, dev), events).c;
    StartedTold(boot, dev, Start);
    RunTold(Initial(boot, dev), events);
    StreakMeaning(boot, dev, events);
    FailureOverlay(boot, dev, events);
  }

  /** The last verdict of the session, with the claim it was reached under, if no release has been recorded since. */
  function LastVerdict(h: History): Option<(AssessmentKind, bool)> {
    match h
    case Start => None
    case Then(_, Boot(_)) => None
    case Then(_, SeededAtBoot) => None
    case Then(_, Judged(reading, engaged)) => Some((reading.kind, engaged))
    case Then(past, Reported(outcome)) => if outcome.Released? then None else LastVerdict(past)
    case Then(past, _) => LastVerdict(past)
  }

  /** Between evaluations the policy state goes on naming the kind of the last verdict. */
  lemma {:induction false} PolicyStateNamesTheVerdict(h: History)
    ensures var last := LastVerdict(h);
            last.Some? ==>
              && (PolicyState(h) == CriticalBraked <==> last.value.0 == Critical)
              && (PolicyState(h) == TelemetryMissing <==> last.value.0 == AssessmentKind.Missing)
              && (PolicyState(h) == TelemetryInvalid <==> last.value.0 == AssessmentKind.Invalid)
              && (PolicyState(h) == TelemetryStale <==> last.value.0 == AssessmentKind.Stale)
              && (PolicyState(h) == Warning <==> last.value.0 == Warn)
              && (PolicyState(h) == SimulatedSoftwareOnly <==> last.value.0 == Simulated)
              && (PolicyState(h) == Recovering <==> last.value == (Ok, true))
              && (PolicyState(h) == HealthyReal <==> last.value == (Ok, false))
  {
    match h
    case Then(past, Attempt(_, _)) => PolicyStateNamesTheVerdict(past);
    case Then(past, Reported(_)) => PolicyStateNamesTheVerdict(past);
    case _ =>
  }
}
