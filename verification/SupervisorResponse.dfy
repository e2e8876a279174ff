/**
 * Intents are acted on: none is lost, failed ones are retried on the cadence,
 * the re-evaluation after a release has an exact boundary, and software-only
 * sessions never act at all.
 */
module SupervisorResponse {
  import opened Prelude
  import opened PowerLimits
  import opened Assessments
  import opened SafetyMachines
  import opened Supervisors
  import opened SupervisorSafety

  predicate SlotsEmpty(c: Core) {
    c.brake.Empty? && c.release.Empty?
  }

  /** The decision the loop dispatches is the one the evaluation returned, but for the post-release warning. */
  lemma DispatchedDecision(c: Core, reading: Reading)
    ensures var returned := Evaluated(c.m, reading.kind).snap.intent;
            var dispatched := Intent(Judge(c, reading).m);
            && (dispatched != NoIntent ==> dispatched == returned)
            && (!c.m.justReleased ==> dispatched == returned)
  {
    FreshAndRecomputedDecisions(c.m, reading.kind);
  }

  /** With free slots and something wanted, a due or pending dispatch is an attempt: spawned, or kept as pending. */
  lemma DispatchIsAnAttempt(c: Core, due: bool)
    requires SlotsEmpty(c) && Intent(c.m) != NoIntent
    requires due || c.pending == Some(Intent(c.m))
    ensures var c' := DispatchDueOrPending(c, due);
            && c'.h == Then(c.h, Attempt(Intent(c.m), !c.busy))
            && (c.busy ==> c'.pending == Some(Intent(c'.m)))
            && (!c.busy ==> !SlotsEmpty(c'))
  {
  }

  const CLEAN_FLAGS := Flags(false, false, false)

  // ---- no intent is lost ------------------------------------------------------------

  /** Something is wanted, nothing is running, and nothing is remembered as blocked. */
  predicate Idling(c: Core) {
    SlotsEmpty(c) && Intent(c.m) != NoIntent && c.pending != Some(Intent(c.m))
  }

  ghost predicate Accounted(c: Core) {
    Idling(c) ==> FailedSinceAttempt(c.h)
  }

  ghost predicate FlagsFit(c: Core, flags: Flags) {
    && c.step >= 1
    && flags.due == flags.evaluated
    && (flags.failed && !flags.evaluated ==> FailedSinceAttempt(c.h))
    && (flags.due || c.step == 1 || Accounted(c))
  }

  ghost predicate ResponseInv(s: State) {
    match s.pc
    case Idle => s.c.step >= 1 ==> Accounted(s.c)
    case Starting => s.c.step >= 1 && (s.c.step >= 2 ==> Accounted(s.c))
    case AcquiringTick(_) => s.c.step >= 1 && (s.c.step >= 2 ==> Accounted(s.c))
    case CollectingBrake(_) => s.c.step >= 1 && (s.c.step >= 2 ==> Accounted(s.c))
    case RereadingBrake(_, _) => s.c.step >= 1
    case CollectingRelease(_, flags) => FlagsFit(s.c, flags)
    case RereadingRelease(_, _, _) => s.c.step >= 1
    case Finishing(_, flags) => FlagsFit(s.c, flags)
    case Stopped => true
  }

  lemma FinishAccounts(c: Core, reading: Reading, flags: Flags)
    requires FlagsFit(c, flags)
    ensures Accounted(Finish(c, reading, flags))
  {
    var c1 := FinishJudge(c, reading, flags);
    var due := FinishDue(c, reading, flags);
    if SlotsEmpty(c1) && Intent(c1.m) != NoIntent {
      if due || c1.pending == Some(Intent(c1.m)) {
        DispatchIsAnAttempt(c1, due);
      } else {
        DispatchedDecision(c, reading);
        assert FailedSinceAttempt(c.h);
      }
    }
  }

  lemma BeginAccounts(c: Core)
    requires c.step >= 1 ==> Accounted(c)
    ensures ResponseInv(State(Starting, BeginDispatch(c)))
  {
    var c1 := c.(step := c.step + 1);
    if c1.pending == Some(Apply) && Intent(c1.m) == Apply && SlotsEmpty(c1) {
      DispatchIsAnAttempt(c1, false);
    }
  }

  lemma CollectAccounts(s: State)
    requires ResponseInv(s)
    requires s.pc.CollectingBrake? || s.pc.CollectingRelease?
    ensures ResponseInv(Step(s, Proceed))
  {
  }

  lemma StepResponse(s: State, e: Event)
    requires ResponseInv(s)
    ensures ResponseInv(Step(s, e))
  {
    match e
    case Proceed =>
      if s.pc.Idle? {
        BeginAccounts(s.c);
      } else if s.pc.CollectingBrake? || s.pc.CollectingRelease? {
        CollectAccounts(s);
      } else if s.pc.Finishing? {
        FinishAccounts(s.c, s.pc.reading, s.pc.flags);
      }
    case ReadEnds(_) =>
    case Environment(_) =>
    case Signal(_, _) =>
    case Crash(_, _) =>
  }

  lemma {:induction false} RunResponse(s: State, events: seq<Event>)
    requires ResponseInv(s)
    ensures ResponseInv(Run(s, events))
    decreases |events|
  {
    if events != [] {
      StepResponse(s, events[0]);
      RunResponse(Step(s, events[0]), events[1..]);
    }
  }

  /**
   * At the end of every iteration of every run: an Apply or Release that is
   * wanted while nothing is running is either remembered as blocked by the gate,
   * or an actuation has failed since the last attempt.
   */
  lemma NoIntentIsLost(boot: BootInput, dev: Device, events: seq<Event>)
    ensures var s := Run(Initial(boot, dev), events);
            s.pc.Idle? && s.c.step >= 1 && SlotsEmpty(s.c) && Intent(s.c.m) != NoIntent ==>
              s.c.pending == Some(Intent(s.c.m)) || FailedSinceAttempt(s.c.h)
  {
    RunResponse(Initial(boot, dev), events);
  }

  // ---- and a failed one is retried within ten iterations ------------------------------

  predicate StaysUp(e: Event) {
    !e.Crash? && !e.Signal?
  }

  function Deadline(c: Core): nat {
    (c.step / 10 + 1) * 10
  }

  /** No attempt since there were `attempts`, so the slots stay empty and the flags clean until the deadline. */
  ghost predicate Waiting(deadline: nat, s: State) {
    && SlotsEmpty(s.c) && s.c.step <= deadline
    && match s.pc
       case Idle => s.c.step == deadline ==> Intent(s.c.m) == NoIntent
       case Starting => true
       case AcquiringTick(_) => true
       case CollectingBrake(_) => true
       case CollectingRelease(_, flags) => flags == CLEAN_FLAGS
       case Finishing(_, flags) => flags == CLEAN_FLAGS
       case _ => false
  }

  ghost predicate Retried(attempts: nat, deadline: nat, s: State) {
    Attempts(s.c.h) > attempts || s.c.step > deadline || Waiting(deadline, s)
  }

  lemma FinishRetries(c: Core, reading: Reading, attempts: nat, deadline: nat)
    requires deadline % 10 == 0 && Attempts(c.h) >= attempts
    requires SlotsEmpty(c) && c.step <= deadline
    ensures var c' := Finish(c, reading, CLEAN_FLAGS);
            Attempts(c'.h) > attempts
            || (SlotsEmpty(c') && c'.step == c.step && (c'.step == deadline ==> Intent(c'.m) == NoIntent))
  {
    var flags := CLEAN_FLAGS;
    var c1 := FinishJudge(c, reading, flags);
    var due := FinishDue(c, reading, flags);
    DispatchedDecision(c, reading);
    if Intent(c1.m) != NoIntent && (due || c1.pending == Some(Intent(c1.m))) {
      DispatchIsAnAttempt(c1, due);
    }
  }

  lemma DispatchForgetsNothing(c: Core, due: bool)
    ensures var c' := DispatchDueOrPending(c, due);
            Attempts(c'.h) >= Attempts(c.h) && c'.step == c.step
  {
  }

  lemma FinishForgetsNothing(c: Core, reading: Reading, flags: Flags)
    ensures var c' := Finish(c, reading, flags);
            Attempts(c'.h) >= Attempts(c.h) && c'.step == c.step
  {
    DispatchForgetsNothing(FinishJudge(c, reading, flags), FinishDue(c, reading, flags));
  }

  lemma BeginForgetsNothing(c: Core)
    ensures Attempts(BeginDispatch(c).h) >= Attempts(c.h) && BeginDispatch(c).step == c.step + 1
  {
    DispatchForgetsNothing(c.(step := c.step + 1), false);
  }

  lemma ReadForgetsNothing(c: Core, holds: bool, result: ReadResult)
    ensures EndRead(c, holds, result).h == c.h && EndRead(c, holds, result).step == c.step
    ensures Attempts(Reassess(c, holds, result).h) == Attempts(c.h) && Reassess(c, holds, result).step == c.step
  {
  }

  lemma CollectForgetsNothing(c: Core, reading: Reading, flags: Flags)
    ensures Attempts(CollectBrake(c, reading).c.h) == Attempts(c.h) && CollectBrake(c, reading).c.step == c.step
    ensures Attempts(CollectRelease(c, reading, flags).c.h) == Attempts(c.h)
    ensures CollectRelease(c, reading, flags).c.step == c.step
  {
  }

  lemma EnvironmentForgetsNothing(c: Core, holds: bool, env: EnvEvent)
    ensures EnvStep(c, holds, env).h == c.h && EnvStep(c, holds, env).step == c.step
  {
  }

  lemma ProceedForgetsNothing(s: State)
    ensures Attempts(Step(s, Proceed).c.h) >= Attempts(s.c.h) && Step(s, Proceed).c.step >= s.c.step
  {
    match s.pc
    case Idle => BeginForgetsNothing(s.c);
    case CollectingBrake(reading) => CollectForgetsNothing(s.c, reading, CLEAN_FLAGS);
    case CollectingRelease(reading, flags) => CollectForgetsNothing(s.c, reading, flags);
    case Finishing(reading, flags) => FinishForgetsNothing(s.c, reading, flags);
    case _ =>
  }

  lemma AttemptsNeverForgotten(s: State, e: Event)
    requires StaysUp(e)
    ensures Attempts(Step(s, e).c.h) >= Attempts(s.c.h) && Step(s, e).c.step >= s.c.step
  {
    match e
    case Proceed => ProceedForgetsNothing(s);
    case ReadEnds(result) => ReadForgetsNothing(s.c, Holds(s.pc), result);
    case Environment(env) => EnvironmentForgetsNothing(s.c, Holds(s.pc), env);
  }

  lemma StepRetries(attempts: nat, deadline: nat, s: State, e: Event)
    requires deadline % 10 == 0 && StaysUp(e)
    requires Attempts(s.c.h) >= attempts && Retried(attempts, deadline, s)
    ensures Attempts(Step(s, e).c.h) >= attempts && Retried(attempts, deadline, Step(s, e))
  {
    AttemptsNeverForgotten(s, e);
    if Waiting(deadline, s) && e.Proceed? && s.pc.Finishing? {
      FinishRetries(s.c, s.pc.reading, attempts, deadline);
    }
  }

  lemma {:induction false} RunRetries(attempts: nat, deadline: nat, s: State, events: seq<Event>)
    requires deadline % 10 == 0 && forall i :: 0 <= i < |events| ==> StaysUp(events[i])
    requires Attempts(s.c.h) >= attempts && Retried(attempts, deadline, s)
    ensures Retried(attempts, deadline, Run(s, events))
    decreases |events|
  {
    if events != [] {
      StepRetries(attempts, deadline, s, events[0]);
      RunRetries(attempts, deadline, Step(s, events[0]), events[1..]);
    }
  }

  /**
   * Bounded response: from any state between iterations with both slots empty,
   * by the next iteration whose number is a multiple of ten (so within ten) the
   * supervisor has made a new dispatch attempt, or wants nothing any more.
   */
  lemma RetryWithinTenIterations(s: State, events: seq<Event>)
    requires s.pc.Idle? && SlotsEmpty(s.c)
    requires forall i :: 0 <= i < |events| ==> StaysUp(events[i])
    requires Run(s, events).pc.Idle? && Run(s, events).c.step == Deadline(s.c)
    ensures Deadline(s.c) <= s.c.step + 10
    ensures Attempts(Run(s, events).c.h) > Attempts(s.c.h) || Intent(Run(s, events).c.m) == NoIntent
  {
    StartsWaiting(s);
    RunRetries(Attempts(s.c.h), Deadline(s.c), s, events);
    RetriedAtDeadline(Attempts(s.c.h), Deadline(s.c), Run(s, events));
  }

  lemma StartsWaiting(s: State)
    requires s.pc.Idle? && SlotsEmpty(s.c)
    ensures Retried(Attempts(s.c.h), Deadline(s.c), s)
    ensures s.c.step < Deadline(s.c) <= s.c.step + 10 && Deadline(s.c) % 10 == 0
  {
  }

  lemma RetriedAtDeadline(attempts: nat, deadline: nat, s: State)
    requires Retried(attempts, deadline, s) && s.pc.Idle? && s.c.step == deadline
    ensures Attempts(s.c.h) > attempts || Intent(s.c.m) == NoIntent
  {
  }

  // ---- right after a release -----------------------------------------------------------

  /** Only a completed release sets the mark, and only an evaluation or an apply clears it. */
  ghost predicate JustReleasedInv(s: State) {
    && (s.pc.RereadingRelease? ==> s.c.m.justReleased && !s.c.m.brakeEngaged && SlotsEmpty(s.c))
    && (s.c.m.justReleased ==> s.pc.RereadingRelease? || s.pc.Stopped?)
  }

  lemma DispatchKeepsMachine(c: Core, due: bool)
    ensures DispatchDueOrPending(c, due).m == c.m
  {
  }

  lemma ProceedJustReleased(s: State)
    requires Inv(s) && JustReleasedInv(s)
    ensures JustReleasedInv(Step(s, Proceed))
  {
    match s.pc
    case Idle => DispatchKeepsMachine(s.c.(step := s.c.step + 1), false);
    case Finishing(reading, flags) =>
      DispatchKeepsMachine(FinishJudge(s.c, reading, flags), FinishDue(s.c, reading, flags));
    case _ =>
  }

  lemma ReadJustReleased(s: State, result: ReadResult)
    requires JustReleasedInv(s)
    ensures JustReleasedInv(Step(s, ReadEnds(result)))
  {
    assert !Judge(EndRead(s.c, Holds(s.pc), result), Acquired(s.c, Holds(s.pc), result)).m.justReleased;
  }

  lemma EnvironmentJustReleased(c: Core, holds: bool, env: EnvEvent)
    ensures EnvStep(c, holds, env).m == c.m && (SlotsEmpty(c) ==> SlotsEmpty(EnvStep(c, holds, env)))
  {
  }

  lemma StartedJustReleased(boot: BootInput, dev: Device, h: History)
    ensures !Started(boot, dev, h).m.justReleased
  {
  }

  lemma StepJustReleased(s: State, e: Event)
    requires Inv(s) && JustReleasedInv(s)
    ensures JustReleasedInv(Step(s, e))
  {
    match e
    case Proceed => ProceedJustReleased(s);
    case ReadEnds(result) => ReadJustReleased(s, result);
    case Environment(env) => EnvironmentJustReleased(s.c, Holds(s.pc), env);
    case Signal(_, _) =>
    case Crash(input, boot) => StartedJustReleased(boot, WorkerStep(s.c, input).dev, s.c.h);
  }

  lemma {:induction false} RunJustReleased(s: State, events: seq<Event>)
    requires Inv(s) && JustReleasedInv(s)
    ensures JustReleasedInv(Run(s, events))
    decreases |events|
  {
    if events != [] {
      StepInv(s, events[0]);
      StepJustReleased(s, events[0]);
      RunJustReleased(Step(s, events[0]), events[1..]);
    }
  }

  /**
   * In the re-evaluation after a completed release the returned decision
   * re-applies for a warning too, but the loop re-applies only for a fail-closed
   * frame: the documented rule holds exactly when that frame is not a warning.
   */
  lemma PostReleaseBoundary(boot: BootInput, dev: Device, events: seq<Event>, result: ReadResult)
    requires Run(Initial(boot, dev), events).pc.RereadingRelease?
    ensures var s := Run(Initial(boot, dev), events);
            var kind := Acquired(s.c, s.pc.holds, result).kind;
            var returned := Evaluated(s.c.m, kind).snap.intent;
            var reapplied := AttemptLog(Step(Step(s, ReadEnds(result)), Proceed).c.h) == AttemptLog(s.c.h) + [Apply];
            && (returned == Apply <==> FailClosed(kind) || kind == Warn)
            && (reapplied <==> FailClosed(kind))
            && ((returned == Apply <==> reapplied) <==> kind != Warn)
  {
    var s := Run(Initial(boot, dev), events);
    StartedInv(boot, dev, Start);
    RunJustReleased(Initial(boot, dev), events);
    PostReleaseStep(s, result);
  }

  lemma ReadKeepsMachine(c: Core, holds: bool, result: ReadResult)
    ensures var c' := EndRead(c, holds, result);
            c'.m == c.m && c'.h == c.h && c'.brake == c.brake && c'.release == c.release
  {
  }

  /** The rest of the iteration after a completed release. */
  lemma PostReleaseIs(s: State, result: ReadResult, reading: Reading)
    requires s.pc.RereadingRelease? && reading == Acquired(s.c, s.pc.holds, result)
    ensures Step(Step(s, ReadEnds(result)), Proceed)
         == State(Idle, Finish(Judge(EndRead(s.c, s.pc.holds, result), reading), s.pc.reading,
                               s.pc.flags.(evaluated := true, due := true)))
  {
  }

  lemma PostReleaseStep(s: State, result: ReadResult)
    requires s.pc.RereadingRelease? && JustReleasedInv(s)
    ensures var kind := Acquired(s.c, s.pc.holds, result).kind;
            var after := Step(Step(s, ReadEnds(result)), Proceed).c;
            && AttemptLog(after.h) == AttemptLog(s.c.h) + (if FailClosed(kind) then [Apply] else [])
            && (Evaluated(s.c.m, kind).snap.intent == Apply <==> FailClosed(kind) || kind == Warn)
  {
    var c := EndRead(s.c, s.pc.holds, result);
    ReadKeepsMachine(s.c, s.pc.holds, result);
    PostReleaseIs(s, result, Acquired(s.c, s.pc.holds, result));
    ReassessedFinish(c, Acquired(s.c, s.pc.holds, result), s.pc.reading, s.pc.flags.(evaluated := true, due := true));
  }

  /** The dispatch that follows the verdict. */
  lemma ReassessedFinish(c: Core, reading: Reading, tick: Reading, flags: Flags)
    requires c.m.justReleased && !c.m.brakeEngaged && SlotsEmpty(c) && flags.evaluated && flags.due
    ensures AttemptLog(Finish(Judge(c, reading), tick, flags).h)
         == AttemptLog(c.h) + (if FailClosed(reading.kind) then [Apply] else [])
    ensures Evaluated(c.m, reading.kind).snap.intent == Apply <==> FailClosed(reading.kind) || reading.kind == Warn
  {
    ReleasedVerdict(c, reading);
    if FailClosed(reading.kind) {
      DispatchIsAnAttempt(Judge(c, reading), true);
    }
  }

  /** What a verdict makes of a machine that has just recorded a release. */
  lemma ReleasedVerdict(c: Core, reading: Reading)
    requires c.m.justReleased && !c.m.brakeEngaged
    ensures Intent(Judge(c, reading).m) == if FailClosed(reading.kind) then Apply else NoIntent
    ensures Evaluated(c.m, reading.kind).snap.intent == Apply <==> FailClosed(reading.kind) || reading.kind == Warn
    ensures AttemptLog(Judge(c, reading).h) == AttemptLog(c.h)
  {
  }

  /** At every other point of every run the loop would dispatch exactly what the evaluation returned. */
  lemma CadenceDecisionsAgree(boot: BootInput, dev: Device, events: seq<Event>, reading: Reading)
    ensures var s := Run(Initial(boot, dev), events);
            !s.pc.RereadingRelease? && !s.pc.Stopped? ==>
              Evaluated(s.c.m, reading.kind).snap.intent == Intent(Judge(s.c, reading).m)
  {
    StartedInv(boot, dev, Start);
    RunJustReleased(Initial(boot, dev), events);
    DispatchedDecision(Run(Initial(boot, dev), events).c, reading);
  }

  // ---- the failure overlay ---------------------------------------------------------------

  predicate IsFailure(outcome: ActuatorOutcome) {
    outcome.ApplyFailed? || outcome.ReleaseFailed?
  }

  /** The last recorded command of the session failed, and no healthy verdict has been reached since. */
  predicate FailureStands(h: History) {
    match h
    case Start => false
    case Then(_, Boot(_)) => false
    case Then(_, Reported(outcome)) => IsFailure(outcome)
    case Then(past, Judged(reading, engaged)) => !(reading.kind == Ok && !engaged) && FailureStands(past)
    case Then(past, _) => FailureStands(past)
  }

  function FailuresThisSession(h: History): nat {
    match h
    case Start => 0
    case Then(_, Boot(_)) => 0
    case Then(past, Reported(outcome)) => FailuresThisSession(past) + if IsFailure(outcome) then 1 else 0
    case Then(past, _) => FailuresThisSession(past)
  }

  ghost predicate OverlayInv(c: Core) {
    && (c.m.lastActuatorError.Some? <==> FailureStands(c.h))
    && c.m.state == (if c.m.lastActuatorError.Some? then ActuatorFailure else c.m.lastPolicyState)
    && c.m.lastPolicyState != ActuatorFailure
    && c.m.actuatorFailuresTotal == Min(FailuresThisSession(c.h), U64_MAX)
  }

  lemma DispatchOverlay(c: Core, due: bool)
    requires OverlayInv(c)
    ensures OverlayInv(DispatchDueOrPending(c, due))
  {
  }

  lemma JudgeOverlay(c: Core, reading: Reading)
    requires OverlayInv(c)
    ensures OverlayInv(Judge(c, reading))
  {
  }

  lemma ReportOverlay(c: Core, outcome: ActuatorOutcome)
    requires OverlayInv(c)
    ensures OverlayInv(Report(c, outcome))
  {
  }

  lemma JoinOverlay(c: Core)
    requires OverlayInv(c)
    ensures OverlayInv(JoinApply(c)) && OverlayInv(JoinRelease(c))
  {
    if c.brake.Finished? {
      ReportOverlay(c.(brake := Empty), ApplyOutcome(c.brake.result));
    }
    if c.release.Finished? {
      ReportOverlay(c.(release := Empty), ReleaseOutcome(c.release.result));
    }
  }

  lemma WorkerOverlay(c: Core, input: JobInput)
    requires OverlayInv(c)
    ensures OverlayInv(WorkerStep(c, input))
  {
  }

  lemma ShutdownOverlay(c: Core, input: JobInput, timedOut: bool)
    requires OverlayInv(c)
    ensures OverlayInv(Shutdown(c, input, timedOut))
  {
    JoinOverlay(c);
    WorkerOverlay(c, input);
    JoinOverlay(TaskStep(WorkerStep(c, input)));
  }

  lemma FinishOverlay(c: Core, reading: Reading, flags: Flags)
    requires OverlayInv(c)
    ensures OverlayInv(Finish(c, reading, flags))
  {
    JudgeOverlay(c, reading);
    DispatchOverlay(FinishJudge(c, reading, flags), FinishDue(c, reading, flags));
  }

  lemma CollectBrakeOverlay(c: Core, reading: Reading)
    requires OverlayInv(c)
    ensures OverlayInv(CollectBrake(c, reading).c)
  {
    if c.brake.Finished? {
      ReportOverlay(c.(brake := Empty), ApplyOutcome(c.brake.result));
    }
  }

  lemma CollectReleaseOverlay(c: Core, reading: Reading, flags: Flags)
    requires OverlayInv(c)
    ensures OverlayInv(CollectRelease(c, reading, flags).c)
  {
    if c.release.Finished? {
      ReportOverlay(c.(release := Empty), ReleaseOutcome(c.release.result));
    }
  }

  lemma BeginOverlay(c: Core)
    requires OverlayInv(c)
    ensures OverlayInv(BeginDispatch(c))
  {
    DispatchOverlay(c.(step := c.step + 1), false);
  }

  lemma ProceedOverlay(s: State)
    requires OverlayInv(s.c)
    ensures OverlayInv(Step(s, Proceed).c)
  {
    match s.pc
    case Idle => BeginOverlay(s.c);
    case CollectingBrake(reading) => CollectBrakeOverlay(s.c, reading);
    case CollectingRelease(reading, flags) => CollectReleaseOverlay(s.c, reading, flags);
    case Finishing(reading, flags) => FinishOverlay(s.c, reading, flags);
    case _ =>
  }

  lemma StepOverlay(s: State, e: Event)
    requires OverlayInv(s.c)
    ensures OverlayInv(Step(s, e).c)
  {
    match e
    case Proceed => ProceedOverlay(s);
    case ReadEnds(result) =>
      var holds := Holds(s.pc);
      assert OverlayInv(EndRead(s.c, holds, result));
      JudgeOverlay(EndRead(s.c, holds, result), Acquired(s.c, holds, result));
    case Environment(_) =>
    case Signal(input, timedOut) => ShutdownOverlay(s.c, input, timedOut);
    case Crash(_, _) =>
  }

  lemma {:induction false} RunOverlay(s: State, events: seq<Event>)
    requires OverlayInv(s.c)
    ensures OverlayInv(Run(s, events).c)
    decreases |events|
  {
    if events != [] {
      StepOverlay(s, events[0]);
      RunOverlay(Step(s, events[0]), events[1..]);
    }
  }

  /**
   * In every run: actuator failure is reported exactly while the last recorded
   * command failed and nothing healthy was seen since; the policy state stays
   * underneath; failures are counted. The shutdown plan reports an unresolved
   * actuator on the same condition, and an unresolved brake exactly when one is
   * claimed, being applied, or wanted.
   */
  lemma FailureOverlay(boot: BootInput, dev: Device, events: seq<Event>)
    ensures var c := Run(Initial(boot, dev), events).c;
            var plan := PlanShutdown(SnapshotOf(c.m), InFlight(c));
            && (c.m.state == ActuatorFailure <==> FailureStands(c.h))
            && (c.m.state != ActuatorFailure ==> c.m.state == c.m.lastPolicyState)
            && c.m.actuatorFailuresTotal == Min(FailuresThisSession(c.h), U64_MAX)
            && (plan.unresolvedActuator <==> FailureStands(c.h))
            && (plan.unresolvedBrake <==> c.m.brakeEngaged || !c.brake.Empty? || Intent(c.m) == Apply)
  {
    RunOverlay(Initial(boot, dev), events);
  }

  // ---- software-only sessions -------------------------------------------------------------

  predicate SoftwareEvent(e: Event) {
    e.Crash? ==> e.boot.software
  }

  ghost predicate SoftwareInv(s: State) {
    && s.c.software && SlotsEmpty(s.c) && s.c.pending.None? && AttemptLog(s.c.h) == []
    && match s.pc
       case Idle => s.c.step >= 1 ==> s.c.m.lastPolicyState.SimulatedSoftwareOnly?
       case Starting => FirstOrSimulated(s.c)
       case AcquiringTick(_) => FirstOrSimulated(s.c)
       case CollectingBrake(reading) => reading == SIMULATED && FirstOrSimulated(s.c)
       case CollectingRelease(reading, flags) =>
         reading == SIMULATED && flags == CLEAN_FLAGS && FirstOrSimulated(s.c)
       case Finishing(reading, flags) =>
         reading == SIMULATED && flags == CLEAN_FLAGS && FirstOrSimulated(s.c)
       case Stopped => true
       case _ => false
  }

  ghost predicate FirstOrSimulated(c: Core) {
    c.step >= 1 && (c.step >= 2 ==> c.m.lastPolicyState.SimulatedSoftwareOnly?)
  }

  lemma FinishSoftware(c: Core)
    requires c.software && SlotsEmpty(c) && c.pending.None? && AttemptLog(c.h) == [] && FirstOrSimulated(c)
    ensures var c' := Finish(c, SIMULATED, CLEAN_FLAGS);
            && SoftwareInv(State(Idle, c')) && c'.dev == c.dev
  {
    SimulationNeverActs(c.m);
  }

  lemma ProceedSoftware(s: State)
    requires SoftwareInv(s)
    ensures SoftwareInv(Step(s, Proceed)) && Step(s, Proceed).c.dev == s.c.dev
  {
    if s.pc.Finishing? {
      FinishSoftware(s.c);
    }
  }

  lemma StepSoftware(s: State, e: Event)
    requires SoftwareInv(s) && SoftwareEvent(e)
    ensures SoftwareInv(Step(s, e)) && Step(s, e).c.dev == s.c.dev
  {
    match e
    case Proceed => ProceedSoftware(s);
    case ReadEnds(_) =>
    case Environment(_) =>
    case Signal(_, _) =>
    case Crash(_, _) =>
  }

  lemma {:induction false} RunSoftware(s: State, events: seq<Event>)
    requires SoftwareInv(s) && forall i :: 0 <= i < |events| ==> SoftwareEvent(events[i])
    ensures SoftwareInv(Run(s, events)) && Run(s, events).c.dev == s.c.dev
    decreases |events|
  {
    if events != [] {
      StepSoftware(s, events[0]);
      RunSoftware(Step(s, events[0]), events[1..]);
    }
  }

  /**
   * Under `--force-software-only`, for any register at start-up, any run length
   * and any restarts into the same mode: no command is ever attempted and the
   * limit never changes, even when a brake was adopted.
   */
  lemma SoftwareOnlyNeverActs(boot: BootInput, dev: Device, events: seq<Event>)
    requires boot.software && forall i :: 0 <= i < |events| ==> SoftwareEvent(events[i])
    ensures var c := Run(Initial(boot, dev), events).c;
            AttemptLog(c.h) == [] && c.dev == dev && SlotsEmpty(c)
  {
    assert AttemptLog(Then(Start, Boot(boot.policy))) == [];
    RunSoftware(Initial(boot, dev), events);
  }
}
