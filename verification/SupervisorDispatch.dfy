/** Who is kept waiting at the gate: an Apply at most, and then it goes first; a Release never. */
module SupervisorDispatch {
  import opened Prelude
  import opened PowerLimits
  import opened Assessments
  import opened SafetyMachines
  import opened Supervisors
  import opened SupervisorSafety
  import opened SupervisorResponse

  /** Every Release ever attempted was spawned on the spot. */
  predicate NoReleaseBlocked(h: History) {
    match h
    case Start => true
    case Then(past, Attempt(intent, spawned)) => (intent == Release ==> spawned) && NoReleaseBlocked(past)
    case Then(past, _) => NoReleaseBlocked(past)
  }

  ghost predicate Unblocked(c: Core) {
    c.pending != Some(Release) && NoReleaseBlocked(c.h)
  }

  /** What is about to be dispatched as a Release rests on a read that has just given its permit back. */
  ghost predicate GateFree(c: Core, reading: Reading, flags: Flags) {
    && flags.due == flags.evaluated
    && (if flags.evaluated then Intent(c.m) == Release ==> !c.busy else reading.kind == Ok ==> !c.busy)
  }

  ghost predicate GateInv(s: State) {
    && Unblocked(s.c)
    && match s.pc
       case CollectingBrake(reading) => reading.kind == Ok ==> !s.c.busy
       case CollectingRelease(reading, flags) => GateFree(s.c, reading, flags)
       case RereadingRelease(_, _, _) => !s.c.m.brakeEngaged
       case Finishing(reading, flags) => GateFree(s.c, reading, flags)
       case _ => true
  }

  lemma DispatchUnblocked(c: Core, due: bool)
    requires Unblocked(c) && (due && Intent(c.m) == Release ==> !c.busy)
    ensures Unblocked(DispatchDueOrPending(c, due))
  {
  }

  /** Only an Ok reading can leave a Release intent behind. */
  lemma ReleaseNeedsOk(c: Core, reading: Reading)
    ensures Intent(Judge(c, reading).m) == Release ==> reading.kind == Ok && c.m.brakeEngaged
    ensures Judge(c, reading).busy == c.busy && Judge(c, reading).pending == c.pending
    ensures NoReleaseBlocked(Judge(c, reading).h) == NoReleaseBlocked(c.h)
  {
    DispatchedDecision(c, reading);
    EvaluationIntents(c.m, reading.kind);
  }

  /** An Ok reading comes from a read that held the permit and has returned it. */
  lemma OkReadFreesTheGate(c: Core, holds: bool, result: ReadResult)
    requires SupervisorSafety.SingleFlight(c, holds)
    ensures Acquired(c, holds, result).kind == Ok ==> !EndRead(c, holds, result).busy
    ensures EndRead(c, holds, result).pending == c.pending && EndRead(c, holds, result).h == c.h
    ensures EndRead(c, holds, result).m == c.m
  {
  }

  lemma FinishUnblocked(c: Core, reading: Reading, flags: Flags)
    requires Unblocked(c) && GateFree(c, reading, flags)
    ensures Unblocked(Finish(c, reading, flags))
  {
    ReleaseNeedsOk(c, reading);
    EvaluationIntents(c.m, reading.kind);
    DispatchUnblocked(FinishJudge(c, reading, flags), FinishDue(c, reading, flags));
  }

  lemma BeginUnblocked(c: Core)
    requires Unblocked(c)
    ensures Unblocked(BeginDispatch(c))
  {
    DispatchUnblocked(c.(step := c.step + 1), false);
  }

  lemma CollectBrakeUnblocked(c: Core, reading: Reading)
    requires Unblocked(c) && (reading.kind == Ok ==> !c.busy)
    ensures GateInv(CollectBrake(c, reading))
  {
  }

  lemma CollectReleaseUnblocked(c: Core, reading: Reading, flags: Flags)
    requires Unblocked(c) && GateFree(c, reading, flags)
    ensures GateInv(CollectRelease(c, reading, flags))
  {
  }

  lemma ProceedUnblocked(s: State)
    requires GateInv(s)
    ensures GateInv(Step(s, Proceed))
  {
    match s.pc
    case Idle => BeginUnblocked(s.c);
    case CollectingBrake(reading) => CollectBrakeUnblocked(s.c, reading);
    case CollectingRelease(reading, flags) => CollectReleaseUnblocked(s.c, reading, flags);
    case Finishing(reading, flags) => FinishUnblocked(s.c, reading, flags);
    case _ =>
  }

  lemma ReadEndsUnblocked(s: State, result: ReadResult)
    requires Inv(s) && GateInv(s)
    ensures GateInv(Step(s, ReadEnds(result)))
  {
    var holds := Holds(s.pc);
    OkReadFreesTheGate(s.c, holds, result);
    ReleaseNeedsOk(EndRead(s.c, holds, result), Acquired(s.c, holds, result));
  }

  lemma EnvironmentUnblocked(c: Core, holds: bool, env: EnvEvent)
    ensures var c' := EnvStep(c, holds, env);
            c'.pending == c.pending && c'.h == c.h && c'.m == c.m && (c'.busy ==> c.busy)
  {
  }

  lemma ShutdownUnblocked(c: Core, input: JobInput, timedOut: bool)
    requires Unblocked(c)
    ensures Unblocked(Shutdown(c, input, timedOut))
  {
  }

  lemma StepUnblocked(s: State, e: Event)
    requires Inv(s) && GateInv(s)
    ensures GateInv(Step(s, e))
  {
    match e
    case Proceed => ProceedUnblocked(s);
    case ReadEnds(result) => ReadEndsUnblocked(s, result);
    case Environment(env) => EnvironmentUnblocked(s.c, Holds(s.pc), env);
    case Signal(input, timedOut) => ShutdownUnblocked(s.c, input, timedOut);
    case Crash(_, _) =>
  }

  lemma {:induction false} RunUnblocked(s: State, events: seq<Event>)
    requires Inv(s) && GateInv(s)
    ensures GateInv(Run(s, events))
    decreases |events|
  {
    if events != [] {
      StepInv(s, events[0]);
      StepUnblocked(s, events[0]);
      RunUnblocked(Step(s, events[0]), events[1..]);
    }
  }

  /**
   * A Release is never kept waiting: in every run each attempted Release gets
   * the permit at once, so only an Apply is ever pending. The intent rests on an
   * Ok reading of the same iteration, and that read has given the permit back.
   */
  lemma ReleaseIsNeverBlocked(boot: BootInput, dev: Device, events: seq<Event>)
    ensures var c := Run(Initial(boot, dev), events).c;
            NoReleaseBlocked(c.h) && c.pending != Some(Release)
  {
    StartedInv(boot, dev, Start);
    RunUnblocked(Initial(boot, dev), events);
  }

  /**
   * No starvation: in every run, an Apply that is still wanted when an iteration
   * starts, with free slots and no failure since the last attempt, is running
   * before that iteration's read can take the gate, if the gate is free at all.
   */
  lemma WantedApplyGoesFirst(boot: BootInput, dev: Device, events: seq<Event>)
    ensures var s := Run(Initial(boot, dev), events);
            s.pc.Idle? && s.c.step >= 1 && SlotsEmpty(s.c) && Intent(s.c.m) == Apply && !FailedSinceAttempt(s.c.h) ==>
              && s.c.pending == Some(Apply)
              && (!s.c.busy ==>
                    var s' := Step(s, Proceed);
                    && s'.c.brake.Running? && s'.pc.Starting?
                    && s'.c.h == Then(s.c.h, Attempt(Apply, true)))
  {
    NoIntentIsLost(boot, dev, events);
    ApplyGoesFirst(Run(Initial(boot, dev), events).c);
  }

  lemma ApplyGoesFirst(c: Core)
    ensures SlotsEmpty(c) && Intent(c.m) == Apply && c.pending == Some(Apply) && !c.busy ==>
              BeginDispatch(c).brake.Running? && BeginDispatch(c).h == Then(c.h, Attempt(Apply, true))
  {
  }
}
