/** Concrete runs: what goes wrong, and that the conditions of the main results are met by some run. */
module SupervisorWitnesses {
  import opened Prelude
  import opened Float32
  import opened SafetyPolicies
  import opened Telemetry
  import opened PowerLimits
  import opened Assessments
  import opened SafetyMachines
  import opened Supervisors
  import opened SupervisorSafety
  import opened SupervisorResponse
  import opened SupervisorLoop
  import opened SupervisorProgress
  import opened SupervisorBraking

  /** A run extended by one event. */
  lemma RunOn(s: State, events: seq<Event>, e: Event) returns (more: seq<Event>)
    ensures more == events + [e] && Run(s, more) == Step(Run(s, events), e)
  {
    more := events + [e];
    RunAppend(s, events, [e]);
    RunOne(Run(s, events), e);
  }

  /** A process that adopts the brake it finds; every query works and nothing else is under way. */
  function Adopting(policy: ResolvedPolicy): BootInput {
    BootInput(policy, false, true, true, false)
  }

  // ---- up to the release -----------------------------------------------------------------------

  /** An iteration with nothing to collect and a read that comes through. */
  lemma PlainIteration(c: Core, from: Acquisition) returns (events: seq<Event>)
    requires !c.software && !c.busy && c.readers == 0 && c.pending.None?
    requires !c.brake.Finished? && !c.release.Finished?
    ensures Run(State(Idle, c), events)
         == State(Idle, Finish(c.(step := c.step + 1), ReadingOf(from, c.policy), CLEAN_FLAGS))
  {
    var start := State(Idle, c);
    var reading := ReadingOf(from, c.policy);
    events := RunOn(start, [], Proceed);
    events := RunOn(start, events, Proceed);
    assert Run(start, events).pc == AcquiringTick(true);
    events := RunOn(start, events, ReadEnds(ReadValue(from)));
    assert Run(start, events) == State(CollectingBrake(reading), c.(step := c.step + 1));
    events := RunOn(start, events, Proceed);
    events := RunOn(start, events, Proceed);
    assert Run(start, events) == State(Finishing(reading, CLEAN_FLAGS), c.(step := c.step + 1));
    events := RunOn(start, events, Proceed);
  }

  /** An adopted brake on its way to the streak; nothing has been attempted yet. */
  ghost predicate Earning(c: Core, dev: Device, policy: ResolvedPolicy) {
    && !c.software && !c.busy && c.readers == 0 && c.pending.None? && SlotsEmpty(c)
    && c.m.brakeEngaged && c.m.lastPolicyState == Recovering && c.m.okCount < c.m.streak
    && c.dev == dev && c.policy == policy && AttemptLog(c.h) == []
  }

  /** The release is running. */
  ghost predicate Releasing(c: Core, dev: Device, policy: ResolvedPolicy) {
    && !c.software && c.readers == 0 && c.pending.None? && c.brake.Empty? && c.release.Running?
    && c.m.brakeEngaged && Intent(c.m) == Release && c.dev == dev && c.policy == policy && AttemptLog(c.h) == [Release]
  }

  /** One more healthy reading: not evaluated, counted, or the last one needed. */
  lemma EarnOrRelease(c: Core, reading: Reading, dev: Device, policy: ResolvedPolicy)
    requires Earning(c, dev, policy) && reading.kind == Ok
    ensures var c' := Finish(c, reading, CLEAN_FLAGS);
            || (Earning(c', dev, policy) && c'.step == c.step && c'.m.streak == c.m.streak
                && c'.m.okCount == c.m.okCount + if ShouldEvaluateTick(c.step, reading.from.raw.source) then 1 else 0)
            || Releasing(c', dev, policy)
  {
    var judged := FinishJudge(c, reading, CLEAN_FLAGS);
    assert AttemptLog(judged.h) == [];
    if Intent(judged.m) == Release {
      DispatchIsAnAttempt(judged, true);
    }
  }

  lemma OneMoreReading(c: Core, healthy: Acquisition, dev: Device, policy: ResolvedPolicy)
    returns (c': Core, events: seq<Event>)
    requires Earning(c, dev, policy) && ReadingOf(healthy, policy).kind == Ok
    ensures Run(State(Idle, c), events) == State(Idle, c')
    ensures Releasing(c', dev, policy)
            || (Earning(c', dev, policy) && c'.m.streak == c.m.streak && c'.step == c.step + 1
                && c'.m.okCount >= c.m.okCount && (c'.step % 10 == 0 ==> c'.m.okCount > c.m.okCount))
  {
    c' := Finish(c.(step := c.step + 1), ReadingOf(healthy, policy), CLEAN_FLAGS);
    EarnOrRelease(c.(step := c.step + 1), ReadingOf(healthy, policy), dev, policy);
    events := PlainIteration(c, healthy);
  }

  lemma {:induction false} HealthyUntilRelease(c: Core, healthy: Acquisition, dev: Device, policy: ResolvedPolicy)
    returns (events: seq<Event>)
    requires Earning(c, dev, policy) && ReadingOf(healthy, policy).kind == Ok
    ensures Run(State(Idle, c), events).pc.Idle? && Releasing(Run(State(Idle, c), events).c, dev, policy)
    decreases c.m.streak - c.m.okCount, 10 - c.step % 10
  {
    var c';
    c', events := OneMoreReading(c, healthy, dev, policy);
    if !Releasing(c', dev, policy) {
      var rest := HealthyUntilRelease(c', healthy, dev, policy);
      RunAppend(State(Idle, c), events, rest);
      events := events + rest;
    }
  }

  /** From an adopted brake, healthy readings alone lead to the release, for every streak. */
  lemma ReleaseUnderWay(dev: Device, policy: ResolvedPolicy, healthy: Acquisition) returns (events: seq<Event>)
    requires InBrakeBand(dev) && ReadingOf(healthy, policy).kind == Ok
    ensures var s := Run(Initial(Adopting(policy), dev), events); s.pc.Idle? && Releasing(s.c, dev, policy)
  {
    var c := Started(Adopting(policy), dev, Start);
    assert c.h == Then(Then(Start, Boot(policy)), SeededAtBoot) && AttemptLog(Then(Start, Boot(policy))) == [];
    events := HealthyUntilRelease(c, healthy, dev, policy);
  }

  /** The worker returns, and the next iteration reads and comes to collect its task. */
  lemma NextIterationCollects(s: State, input: JobInput, from: Acquisition) returns (events: seq<Event>)
    requires s.pc.Idle? && s.c.brake.Empty? && s.c.release.Running? && s.c.pending.None?
    requires !s.c.software && s.c.readers == 0
    ensures Run(s, events)
         == State(CollectingRelease(ReadingOf(from, s.c.policy), CLEAN_FLAGS),
                  TaskStep(WorkerStep(s.c, input)).(step := s.c.step + 1))
  {
    var reading := ReadingOf(from, s.c.policy);
    events := RunOn(s, [], Environment(WorkerReturns(input)));
    events := RunOn(s, events, Environment(TaskFinishes));
    ghost var c := Run(s, events).c;
    assert c.release.Finished? && !c.busy && c.readers == 0;
    events := RunOn(s, events, Proceed);
    events := RunOn(s, events, Proceed);
    assert Run(s, events).pc == AcquiringTick(true);
    events := RunOn(s, events, ReadEnds(ReadValue(from)));
    assert Run(s, events) == State(CollectingBrake(reading), c.(step := s.c.step + 1));
    events := RunOn(s, events, Proceed);
  }

  // ---- a warning right after the release -------------------------------------------------------

  const DONE := JobInput(true, true, Completed, false)

  lemma CompletedRelease(c: Core, dev: Device, policy: ResolvedPolicy)
    requires Releasing(c, dev, policy) && InBrakeBand(dev)
    ensures var c' := TaskStep(WorkerStep(c, DONE));
            && c'.release == Finished(Success(())) && AtDefault(c'.dev) && c'.policy == policy && !c'.software
            && !c'.busy && c'.h == c.h
  {
    BrakeTargetIsHalf(dev.defaultW);
  }

  /** A warning makes the evaluation ask for the brake and the loop do nothing. */
  lemma WarningIsIgnored(s: State, warm: Acquisition)
    requires s.pc.RereadingRelease? && s.pc.holds && JustReleasedInv(s) && !s.c.software
    requires ReadingOf(warm, s.c.policy).kind == Warn
    ensures var after := Step(Step(s, ReadEnds(ReadValue(warm))), Proceed);
            && Evaluated(s.c.m, Acquired(s.c, s.pc.holds, ReadValue(warm)).kind).snap.intent == Apply
            && after.pc.Idle? && AttemptLog(after.c.h) == AttemptLog(s.c.h) && after.c.dev == s.c.dev
  {
    PostReleaseStep(s, ReadValue(warm));
    ProceedKeepsDevice(Step(s, ReadEnds(ReadValue(warm))));
  }

  lemma CompletedReleaseRun(dev: Device, policy: ResolvedPolicy, healthy: Acquisition) returns (events: seq<Event>)
    requires InBrakeBand(dev) && ReadingOf(healthy, policy).kind == Ok
    ensures var s := Run(Initial(Adopting(policy), dev), events);
            && s.pc == CollectingRelease(ReadingOf(healthy, policy), CLEAN_FLAGS)
            && s.c.release == Finished(Success(())) && AtDefault(s.c.dev) && !s.c.busy && !s.c.software
            && s.c.policy == policy && AttemptLog(s.c.h) == [Release]
  {
    var start := Initial(Adopting(policy), dev);
    var first := ReleaseUnderWay(dev, policy, healthy);
    var second := NextIterationCollects(Run(start, first), DONE, healthy);
    CompletedRelease(Run(start, first).c, dev, policy);
    RunAppend(start, first, second);
    events := first + second;
  }

  /** The release that healthy readings earned is collected and the loop reads again. */
  lemma RereadAfterRelease(dev: Device, policy: ResolvedPolicy, healthy: Acquisition) returns (events: seq<Event>)
    requires InBrakeBand(dev) && ReadingOf(healthy, policy).kind == Ok
    ensures var s := Run(Initial(Adopting(policy), dev), events);
            && s.pc.RereadingRelease? && s.pc.holds && JustReleasedInv(s) && !s.c.software && s.c.policy == policy
            && AtDefault(s.c.dev) && AttemptLog(s.c.h) == [Release]
  {
    var start := Initial(Adopting(policy), dev);
    events := CompletedReleaseRun(dev, policy, healthy);
    events := RunOn(start, events, Proceed);
    StartedInv(Adopting(policy), dev, Start);
    RunJustReleased(start, events);
  }

  /**
   * The documented rule fails: for every braked device and every policy, a run
   * in which healthy readings complete the streak, the release succeeds, and the
   * frame read next is a warning. The evaluation asks for the brake, the loop
   * does not dispatch it, and the limit stays at the default.
   */
  lemma WarningAfterReleaseIsNotReapplied(dev: Device, policy: ResolvedPolicy, healthy: Acquisition, warm: Acquisition)
    returns (events: seq<Event>)
    requires InBrakeBand(dev) && ReadingOf(healthy, policy).kind == Ok && ReadingOf(warm, policy).kind == Warn
    ensures var s := Run(Initial(Adopting(policy), dev), events);
            var after := Step(Step(s, ReadEnds(ReadValue(warm))), Proceed);
            && s.pc.RereadingRelease?
            && Evaluated(s.c.m, Acquired(s.c, s.pc.holds, ReadValue(warm)).kind).snap.intent == Apply
            && after.pc.Idle? && AttemptLog(after.c.h) == [Release]
            && after.c.dev.currentW == after.c.dev.defaultW
  {
    events := RereadAfterRelease(dev, policy, healthy);
    WarningIsIgnored(Run(Initial(Adopting(policy), dev), events), warm);
  }

  // ---- a release that writes and reports failure ------------------------------------------------

  /** The command wrote the limit and was killed before it could say so. */
  const LOST := JobInput(true, true, Failed(true), false)

  lemma LostRelease(c: Core, dev: Device, policy: ResolvedPolicy)
    requires Releasing(c, dev, policy) && InBrakeBand(dev)
    ensures var c' := TaskStep(WorkerStep(c, LOST));
            && c'.release == Finished(Failure(CommandFailed)) && AtDefault(c'.dev) && c'.brake.Empty?
            && c'.m == c.m && c'.pending.None? && !c'.software && c'.policy == policy
            && c'.dev.defaultW == dev.defaultW
  {
    BrakeTargetIsHalf(dev.defaultW);
  }

  /** Collecting it keeps the claim, and the failure keeps this iteration from dispatching. */
  lemma LostReleaseCollected(s: State)
    requires s.pc.CollectingRelease? && s.pc.flags == CLEAN_FLAGS && s.c.release == Finished(Failure(CommandFailed))
    requires s.c.brake.Empty? && s.c.m.brakeEngaged && s.c.pending.None? && !s.c.software && s.pc.reading.kind == Ok
    requires Intent(s.c.m) == Release
    ensures var s' := Step(Step(s, Proceed), Proceed);
            && s'.pc.Idle? && SlotsEmpty(s'.c) && s'.c.m.brakeEngaged && s'.c.pending.None?
            && s'.c.dev == s.c.dev && s'.c.policy == s.c.policy && !s'.c.software
  {
  }

  lemma LostReleaseRun(dev: Device, policy: ResolvedPolicy, healthy: Acquisition) returns (events: seq<Event>)
    requires InBrakeBand(dev) && ReadingOf(healthy, policy).kind == Ok
    ensures var s := Run(Initial(Adopting(policy), dev), events);
            && s.pc == CollectingRelease(ReadingOf(healthy, policy), CLEAN_FLAGS)
            && s.c.release == Finished(Failure(CommandFailed)) && AtDefault(s.c.dev) && s.c.brake.Empty?
            && s.c.m.brakeEngaged && Intent(s.c.m) == Release && s.c.pending.None? && !s.c.software
            && s.c.policy == policy && s.c.dev.defaultW == dev.defaultW
  {
    var start := Initial(Adopting(policy), dev);
    var first := ReleaseUnderWay(dev, policy, healthy);
    var second := NextIterationCollects(Run(start, first), LOST, healthy);
    LostRelease(Run(start, first).c, dev, policy);
    RunAppend(start, first, second);
    events := first + second;
  }

  /**
   * Fail-closed telemetry does not brake a device whose release wrote the limit
   * and reported failure. For every braked device and every policy: a run in
   * which healthy readings earn a release whose command does just that. The
   * brake is claimed, the limit is at the default, and no sequence of
   * fail-closed iterations, whatever the workers do, ever changes it.
   */
  lemma FailedReleaseLosesTheBrake(dev: Device, policy: ResolvedPolicy, healthy: Acquisition)
    returns (events: seq<Event>)
    requires InBrakeBand(dev) && ReadingOf(healthy, policy).kind == Ok
    ensures var s := Run(Initial(Adopting(policy), dev), events);
            && s.pc.Idle? && SlotsEmpty(s.c) && s.c.m.brakeEngaged && !s.c.software && s.c.policy == policy
            && s.c.dev == Device(dev.defaultW, dev.defaultW)
            && forall inputs :: FailClosedTicks(inputs, policy) ==> Ticks(s.c, inputs).dev == s.c.dev
  {
    var start := Initial(Adopting(policy), dev);
    events := LostReleaseRun(dev, policy, healthy);
    LostReleaseCollected(Run(start, events));
    events := RunOn(start, events, Proceed);
    events := RunOn(start, events, Proceed);
    ghost var c := Run(start, events).c;
    forall inputs | FailClosedTicks(inputs, policy) ensures Ticks(c, inputs).dev == c.dev {
      TicksStuck(c, inputs);
    }
  }

  // ---- the conditions can be met ------------------------------------------------------------------

  const WITNESS_POLICY: ResolvedPolicy := SafetyPolicy(
    SafetyPolicyConfig(Finite(75.0), Finite(85.0), Some(Finite(200.0)), Some(Finite(300.0)), 3, 2000, 100),
    Some((Finite(200.0), Finite(300.0))), Operator)

  function ReadAt(tempC: real): Acquisition {
    var raw := RawTelemetry(Some(0), Nvml, Some(Finite(tempC)), None, Some(Finite(100.0)),
                            None, None, None, None, None);
    Acquisition(raw, 0, 100)
  }

  lemma WitnessReadings()
    ensures ReadingOf(ReadAt(50.0), WITNESS_POLICY).kind == Ok
    ensures ReadingOf(ReadAt(80.0), WITNESS_POLICY).kind == Warn
    ensures InBrakeBand(Device(150, 300))
  {
    BrakeTargetIsHalf(300);
  }
}
