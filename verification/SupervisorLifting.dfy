/**
 * The release, end to end: what healthy readings and a cooperating device do to
 * a braked register.
 */
module SupervisorLifting {
  import opened SafetyPolicies
  import opened PowerLimits
  import opened Assessments
  import opened SafetyMachines
  import opened Supervisors
  import opened SupervisorSafety
  import opened SupervisorHealth
  import opened SupervisorResponse
  import opened SupervisorLoop
  import opened SupervisorProgress
  import opened SupervisorBraking

  // ---- healthy iterations --------------------------------------------------------------------

  predicate OkRead(result: ReadResult, policy: ResolvedPolicy) {
    result.ReadValue? && ReadingOf(result.from, policy).kind == Ok
  }

  predicate OkTick(i: TickInput, policy: ResolvedPolicy) {
    OkRead(i.read, policy) && OkRead(i.brakeRead, policy) && OkRead(i.releaseRead, policy)
  }

  ghost predicate OkTicks(inputs: seq<TickInput>, policy: ResolvedPolicy) {
    forall k :: 0 <= k < |inputs| ==> OkTick(inputs[k], policy)
  }

  /** From rest a read takes the gate, comes through, and leaves everything as it was. */
  lemma ReadFromRest(c: Core, during: seq<EnvEvent>, result: ReadResult)
    requires AtRest(c) && !c.software && OkRead(result, c.policy)
    ensures ReadTakesPermit(c)
    ensures var waited := EnvSteps(StartRead(c), true, during);
            EndRead(waited, true, result) == c && Acquired(waited, true, result) == ReadingOf(result.from, c.policy)
  {
    QuietRead(StartRead(c), during);
  }

  // ---- the brake comes off -------------------------------------------------------------------

  predicate Held(c: Core) {
    c.brake.Empty? && c.release.Empty? && c.m.brakeEngaged && c.m.lastPolicyState != HealthyReal && InBrakeBand(c.dev)
  }

  predicate Lifting(c: Core) {
    && c.brake.Empty? && c.m.brakeEngaged
    && ((c.release.Running? && InBrakeBand(c.dev))
        || (Came(c.release) && c.release.result.Success? && c.dev.currentW == c.dev.defaultW))
  }

  predicate Lifted(c: Core) {
    && c.brake.Empty? && c.release.Empty? && !c.m.brakeEngaged && c.m.lastPolicyState == HealthyReal
    && c.dev.currentW == c.dev.defaultW
  }

  predicate Liftable(c: Core) {
    !c.software && (Held(c) || Lifting(c) || Lifted(c))
  }

  /** On the way to the default; `before` tells how far it was already. */
  predicate Upward(before: Core, c: Core) {
    && c.policy == before.policy && c.m.streak == before.m.streak && Liftable(c)
    && (Lifting(before) ==> !Held(c))
    && (Lifted(before) ==> Lifted(c))
  }

  lemma EnvUpward(c: Core, e: EnvEvent)
    requires Liftable(c) && (e.WorkerReturns? ==> Cooperates(e.input))
    ensures Upward(c, EnvStep(c, false, e)) && EnvStep(c, false, e).m == c.m
  {
    BrakeTargetIsHalf(c.dev.defaultW);
  }

  lemma {:induction false} EnvsUpward(c: Core, events: seq<EnvEvent>)
    requires Liftable(c) && CooperatingEnv(events)
    ensures Upward(c, EnvSteps(c, false, events)) && EnvSteps(c, false, events).m == c.m
    decreases |events|
  {
    if events != [] {
      EnvUpward(c, events[0]);
      EnvsUpward(EnvStep(c, false, events[0]), events[1..]);
    }
  }

  /** The read phase from rest: the tick's own reading is healthy and nothing else has changed. */
  lemma ReadPhaseFromRest(c: Core, i: TickInput)
    requires AtRest(c) && !Blocked(c) && !c.software && OkRead(i.read, c.policy)
    ensures var s := AfterRead(c, i);
            && AtRest(s.c) && s.c == c.(step := c.step + 1, pending := s.c.pending)
            && s.pc.reading.kind == Ok && !Blocked(s.c)
  {
    BeginsAtRest(c);
    RestIsQuiet(BeginDispatch(c), i.beforeRead);
    ReadFromRest(BeginDispatch(c), i.duringRead, i.read);
  }

  lemma ReleasePhaseUpward(c: Core, reading: Reading, i: TickInput)
    requires AtRest(c) && Liftable(c) && OkRead(i.releaseRead, c.policy)
    ensures var s := AfterRelease(c, reading, CLEAN_FLAGS, i);
            && AtRest(s.c) && Upward(c, s.c) && !Lifting(s.c) && s.pc == Finishing(reading, s.pc.flags)
            && (Held(c) ==> s == State(Finishing(reading, CLEAN_FLAGS), c))
  {
    RestIsQuiet(c, i.beforeRelease);
    var s := CollectRelease(c, reading, CLEAN_FLAGS);
    if s.pc.RereadingRelease? {
      var reported := Report(c.(release := Empty), Released);
      ReadFromRest(reported, i.duringRelease, i.releaseRead);
    }
  }

  /** What one iteration adds to the streak while the brake is still held. */
  predicate Earned(c: Core, c': Core, step: nat) {
    && c.m.okCount <= c'.m.okCount
    && (c.m.okCount < c.m.streak ==> c'.m.okCount < c.m.streak)
    && (step % 10 == 0 ==> c'.m.okCount == c.m.okCount + 1 < c.m.streak)
  }

  lemma FinishUpward(c: Core, reading: Reading, flags: Flags)
    requires AtRest(c) && Liftable(c) && !Lifting(c) && reading.kind == Ok && (Held(c) ==> flags == CLEAN_FLAGS)
    ensures var c' := Finish(c, reading, flags);
            Upward(c, c') && (Held(c) && Held(c') ==> Earned(c, c', c.step))
  {
    var c1 := FinishJudge(c, reading, flags);
    if Held(c) {
      EvaluationIntents(c.m, Ok);
      DispatchedDecision(c, reading);
      HeldDispatch(c1, FinishDue(c, reading, flags));
    } else {
      assert Intent(c1.m) == NoIntent;
    }
  }

  /** From rest a due Release is spawned. */
  lemma HeldDispatch(c: Core, due: bool)
    requires AtRest(c) && !c.software && Held(c)
    ensures var c' := DispatchDueOrPending(c, due);
            && Upward(c, c') && c'.m == c.m
            && (Held(c') ==> !due || Intent(c.m) != Release)
  {
  }

  lemma AwakeUpward(c: Core, i: TickInput)
    requires AtRest(c) && Liftable(c) && OkTick(i, c.policy)
    ensures var c' := Awake(c, i);
            Upward(c, c') && (Held(c) && Held(c') ==> Earned(c, c', c.step + 1))
  {
    ReadPhaseFromRest(c, i);
    var s1 := AfterRead(c, i);
    BrakePhaseFromRest(s1.c, s1.pc.reading, i);
    ReleasePhaseUpward(s1.c, s1.pc.reading, i);
    var s3 := AfterRelease(s1.c, s1.pc.reading, CLEAN_FLAGS, i);
    RestIsQuiet(s3.c, i.beforeDispatch);
    FinishUpward(s3.c, s1.pc.reading, s3.pc.flags);
  }

  lemma TickUpward(c: Core, i: TickInput)
    requires Inv(State(Idle, c)) && AtRest(c) && Liftable(c) && OkTick(i, c.policy) && Responsive(i)
    ensures var c' := Tick(c, i);
            && Upward(c, c') && AtRest(c') && Inv(State(Idle, c')) && c'.step == c.step + 1
            && (Held(c) && Held(c') ==> Earned(c, c', c'.step))
  {
    AwakeUpward(c, i);
    SleepOf(c, i);
    EnvsUpward(Awake(c, i), i.duringSleep);
    TickKeepsInv(c, i);
    TickCounts(c, i);
  }

  // ---- deadlines ---------------------------------------------------------------------------------

  /** While the brake is still held, every cadence evaluation since `start` has counted. */
  predicate OnCourse(c: Core, start: nat) {
    && start <= c.step
    && (Held(c) ==>
          && c.step / 10 - start / 10 <= c.m.okCount
          && (c.step / 10 == start / 10 || c.m.okCount < c.m.streak))
  }

  ghost predicate Going(c: Core, start: nat, streak: nat, policy: ResolvedPolicy) {
    && Inv(State(Idle, c)) && AtRest(c) && Liftable(c) && OnCourse(c, start)
    && c.m.streak == streak && c.policy == policy
  }

  lemma StaysOnCourse(c: Core, c': Core, start: nat)
    requires OnCourse(c, start) && Upward(c, c') && Liftable(c) && c'.step == c.step + 1
    requires Held(c) && Held(c') ==> Earned(c, c', c'.step)
    ensures OnCourse(c', start)
  {
    assert c'.step / 10 == c.step / 10 + if c'.step % 10 == 0 then 1 else 0;
  }

  lemma TickOnCourse(c: Core, i: TickInput, start: nat, streak: nat, policy: ResolvedPolicy)
    requires Going(c, start, streak, policy) && OkTick(i, policy) && Responsive(i)
    ensures Going(Tick(c, i), start, streak, policy) && Tick(c, i).step == c.step + 1
  {
    TickUpward(c, i);
    StaysOnCourse(c, Tick(c, i), start);
  }

  lemma AfterOneOk(c: Core, inputs: seq<TickInput>, policy: ResolvedPolicy) returns (c': Core, rest: seq<TickInput>)
    requires inputs != [] && OkTicks(inputs, policy) && ResponsiveTicks(inputs)
    ensures c' == Tick(c, inputs[0]) && Ticks(c, inputs) == Ticks(c', rest) && |rest| == |inputs| - 1
    ensures OkTicks(rest, policy) && ResponsiveTicks(rest)
  {
    c', rest := Tick(c, inputs[0]), inputs[1..];
  }

  lemma OneOnCourse(c: Core, inputs: seq<TickInput>, start: nat, streak: nat, policy: ResolvedPolicy)
    returns (c': Core, rest: seq<TickInput>)
    requires Going(c, start, streak, policy) && OkTicks(inputs, policy) && ResponsiveTicks(inputs) && inputs != []
    ensures Going(c', start, streak, policy) && c'.step == c.step + 1 && |rest| == |inputs| - 1
    ensures Ticks(c, inputs) == Ticks(c', rest) && OkTicks(rest, policy) && ResponsiveTicks(rest)
  {
    TickOnCourse(c, inputs[0], start, streak, policy);
    c', rest := AfterOneOk(c, inputs, policy);
  }

  lemma {:induction false} TicksOnCourse(c: Core, inputs: seq<TickInput>, start: nat, streak: nat,
                                         policy: ResolvedPolicy)
    requires Going(c, start, streak, policy) && OkTicks(inputs, policy) && ResponsiveTicks(inputs)
    ensures Going(Ticks(c, inputs), start, streak, policy) && Ticks(c, inputs).step == c.step + |inputs|
    decreases |inputs|
  {
    if inputs != [] {
      var c', rest := OneOnCourse(c, inputs, start, streak, policy);
      TicksOnCourse(c', rest, start, streak, policy);
    }
  }

  lemma CadencesPassed(start: nat, step: nat, streak: nat)
    requires step >= start + 10 * streak
    ensures step / 10 - start / 10 >= streak
  {
  }

  lemma PastStreak(c: Core, start: nat, streak: nat, policy: ResolvedPolicy)
    requires Going(c, start, streak, policy) && c.step >= start + 10 * streak
    ensures c.dev.currentW == c.dev.defaultW
  {
    CadencesPassed(start, c.step, streak);
  }

  lemma LiftedByStreak(c: Core, inputs: seq<TickInput>, start: nat, streak: nat, policy: ResolvedPolicy)
    requires Going(c, start, streak, policy) && OkTicks(inputs, policy) && ResponsiveTicks(inputs)
    requires c.step + |inputs| >= start + 10 * streak
    ensures Ticks(c, inputs).dev.currentW == Ticks(c, inputs).dev.defaultW
  {
    TicksOnCourse(c, inputs, start, streak, policy);
    PastStreak(Ticks(c, inputs), start, streak, policy);
  }

  // ---- a brake that is there but not claimed -----------------------------------------------------

  /** The relay's own brake is on the register and an apply is on its way to find it there. */
  predicate Adopting(c: Core, holds: bool) {
    && !c.software && c.release.Empty? && !c.m.brakeEngaged && c.m.okCount == 0 && InBrakeBand(c.dev)
    && c.readers == (if holds then 1 else 0)
    && c.busy == (holds || c.brake.Running?)
    && (c.brake.Running? || (Came(c.brake) && c.brake.result.Success?))
    && (holds ==> Came(c.brake))
  }

  /** `c` comes after `before`; a finished apply stays finished. */
  predicate StillAdopting(before: Core, c: Core, holds: bool) {
    && Adopting(c, holds) && c.policy == before.policy && c.m.streak == before.m.streak
    && (before.brake.Finished? ==> c.brake.Finished?)
  }

  lemma EnvAdopts(c: Core, holds: bool, e: EnvEvent)
    requires Adopting(c, holds) && (e.WorkerReturns? ==> Cooperates(e.input))
    ensures StillAdopting(c, EnvStep(c, holds, e), holds)
  {
    BrakeTargetIsHalf(c.dev.defaultW);
  }

  lemma {:induction false} EnvsAdopt(c: Core, holds: bool, events: seq<EnvEvent>)
    requires Adopting(c, holds) && CooperatingEnv(events)
    ensures StillAdopting(c, EnvSteps(c, holds, events), holds)
    decreases |events|
  {
    if events != [] {
      EnvAdopts(c, holds, events[0]);
      EnvsAdopt(EnvStep(c, holds, events[0]), holds, events[1..]);
    }
  }

  lemma DispatchAdopts(c: Core, due: bool)
    requires Adopting(c, false)
    ensures StillAdopting(c, DispatchDueOrPending(c, due), false)
  {
  }

  /** An apply is out, or it is about to go out because the gate is free again. */
  predicate SetToAdopt(c: Core) {
    || Adopting(c, false)
    || (AtRest(c) && SlotsEmpty(c) && !c.software && !c.m.brakeEngaged
        && c.m.okCount == 0 && InBrakeBand(c.dev) && Blocked(c))
  }

  lemma BeginAdopts(c: Core)
    requires SetToAdopt(c)
    ensures StillAdopting(c, BeginDispatch(c), false)
  {
    if Adopting(c, false) {
      DispatchAdopts(c.(step := c.step + 1), false);
    }
  }

  lemma ReadPhaseAdopts(c: Core, i: TickInput)
    requires SetToAdopt(c) && OkTick(i, c.policy) && Responsive(i)
    ensures StillAdopting(c, AfterRead(c, i).c, false)
  {
    BeginAdopts(c);
    EnvsAdopt(BeginDispatch(c), false, i.beforeRead);
    var s := StartTick(EnvSteps(BeginDispatch(c), false, i.beforeRead));
    EnvsAdopt(s.c, s.pc.holds, i.duringRead);
  }

  /** Claimed after one healthy verdict; the streak has begun. */
  predicate Claimed(before: Core, c: Core) {
    && !c.software && Held(c) && AtRest(c) && c.m.okCount == 1 && c.m.lastPolicyState == Recovering
    && c.policy == before.policy && c.m.streak == before.m.streak
  }

  lemma BrakePhaseAdopts(c: Core, reading: Reading, i: TickInput)
    requires Adopting(c, false) && OkTick(i, c.policy) && Responsive(i)
    ensures var s := AfterBrake(c, reading, i);
            && s.pc == CollectingRelease(reading, s.pc.flags)
            && (if s.pc.flags == CLEAN_FLAGS then StillAdopting(c, s.c, false) && !c.brake.Finished?
                else Claimed(c, s.c) && s.pc.flags == Flags(true, false, true))
  {
    EnvsAdopt(c, false, i.beforeBrake);
    var waited := EnvSteps(c, false, i.beforeBrake);
    if waited.brake.Finished? {
      var reported := Report(waited.(brake := Empty), Applied);
      ReadFromRest(reported, i.duringBrake, i.brakeRead);
    }
  }

  /** Either the apply has still to be collected, or the streak stands at one and is not complete. */
  predicate Settling(before: Core, c: Core) {
    && c.policy == before.policy && c.m.streak == before.m.streak
    && ((Adopting(c, false) && !before.brake.Finished?)
        || (Liftable(c) && (Held(c) ==> c.m.okCount == 1 < c.m.streak)))
  }

  lemma FinishAdopts(c: Core, reading: Reading)
    requires Adopting(c, false)
    ensures StillAdopting(c, Finish(c, reading, CLEAN_FLAGS), false)
  {
    DispatchAdopts(FinishJudge(c, reading, CLEAN_FLAGS), FinishDue(c, reading, CLEAN_FLAGS));
  }

  lemma FinishClaims(before: Core, c: Core, reading: Reading)
    requires Claimed(before, c)
    ensures var c' := Finish(c, reading, Flags(true, false, true));
            Upward(c, c') && (Held(c') ==> c'.m.okCount == 1 < c'.m.streak)
  {
    HeldDispatch(c, true);
  }

  /** The end of an iteration that has not collected the apply. */
  lemma TailAdopts(c: Core, reading: Reading, i: TickInput)
    requires Adopting(c, false) && Responsive(i)
    ensures var s := AfterRelease(c, reading, CLEAN_FLAGS, i);
            && s.pc == Finishing(reading, CLEAN_FLAGS)
            && StillAdopting(c, Finish(EnvSteps(s.c, false, i.beforeDispatch), reading, CLEAN_FLAGS), false)
  {
    EnvsAdopt(c, false, i.beforeRelease);
    var waited := EnvSteps(c, false, i.beforeRelease);
    EnvsAdopt(waited, false, i.beforeDispatch);
    FinishAdopts(EnvSteps(waited, false, i.beforeDispatch), reading);
  }

  /** The end of an iteration that has. */
  lemma TailClaims(before: Core, c: Core, reading: Reading, i: TickInput)
    requires Claimed(before, c)
    ensures var flags := Flags(true, false, true);
            var s := AfterRelease(c, reading, flags, i);
            var c' := Finish(EnvSteps(s.c, false, i.beforeDispatch), reading, flags);
            && s.pc == Finishing(reading, flags)
            && Upward(c, c') && (Held(c') ==> c'.m.okCount == 1 < c'.m.streak)
  {
    RestIsQuiet(c, i.beforeRelease);
    RestIsQuiet(c, i.beforeDispatch);
    FinishClaims(before, c, reading);
  }

  lemma AwakeAdopts(c: Core, i: TickInput)
    requires SetToAdopt(c) && OkTick(i, c.policy) && Responsive(i)
    ensures Settling(c, Awake(c, i))
  {
    ReadPhaseAdopts(c, i);
    var s1 := AfterRead(c, i);
    BrakePhaseAdopts(s1.c, s1.pc.reading, i);
    var s2 := AfterBrake(s1.c, s1.pc.reading, i);
    if s2.pc.flags == CLEAN_FLAGS {
      TailAdopts(s2.c, s1.pc.reading, i);
    } else {
      TailClaims(s1.c, s2.c, s1.pc.reading, i);
    }
  }

  lemma TickAdopts(c: Core, i: TickInput)
    requires Inv(State(Idle, c)) && SetToAdopt(c) && OkTick(i, c.policy) && Responsive(i)
    ensures var c' := Tick(c, i);
            Settling(c, c') && AtRest(c') && Inv(State(Idle, c')) && c'.step == c.step + 1
  {
    AwakeAdopts(c, i);
    SleepOf(c, i);
    if Adopting(Awake(c, i), false) {
      EnvsAdopt(Awake(c, i), false, i.duringSleep);
    } else {
      EnvsUpward(Awake(c, i), i.duringSleep);
    }
    TickKeepsInv(c, i);
    TickCounts(c, i);
  }

  /** Within two iterations the brake is claimed and on its way off. */
  lemma AdoptedAndGoing(c: Core, inputs: seq<TickInput>) returns (c': Core, rest: seq<TickInput>)
    requires Inv(State(Idle, c)) && SetToAdopt(c) && |inputs| >= 2
    requires OkTicks(inputs, c.policy) && ResponsiveTicks(inputs)
    ensures Going(c', c.step, c.m.streak, c.policy) && c'.step + |rest| == c.step + |inputs|
    ensures Ticks(c, inputs) == Ticks(c', rest) && OkTicks(rest, c.policy) && ResponsiveTicks(rest)
  {
    TickAdopts(c, inputs[0]);
    c', rest := AfterOneOk(c, inputs, c.policy);
    if Adopting(c', false) {
      var c1 := c';
      TickAdopts(c1, rest[0]);
      c', rest := AfterOneOk(c1, rest, c.policy);
    }
  }

  /** Nothing under way, nothing claimed, nothing wanted at the gate. */
  predicate Unclaimed(c: Core) {
    AtRest(c) && SlotsEmpty(c) && !c.software && !c.m.brakeEngaged && !Blocked(c)
  }

  lemma FinishUnclaimed(c: Core, reading: Reading)
    requires Unclaimed(c) && reading.kind == Ok
    ensures var c' := Finish(c, reading, CLEAN_FLAGS);
            Unclaimed(c') && c'.dev == c.dev && c'.policy == c.policy
  {
  }

  lemma TickUnclaimed(c: Core, i: TickInput)
    requires Unclaimed(c) && OkTick(i, c.policy)
    ensures Unclaimed(Tick(c, i)) && Tick(c, i).dev == c.dev && Tick(c, i).policy == c.policy
  {
    ReadPhaseFromRest(c, i);
    var s1 := AfterRead(c, i);
    BrakePhaseFromRest(s1.c, s1.pc.reading, i);
    RestIsQuiet(s1.c, i.beforeRelease);
    RestIsQuiet(s1.c, i.beforeDispatch);
    FinishUnclaimed(s1.c, s1.pc.reading);
    RestIsQuiet(Awake(c, i), i.duringSleep);
  }

  lemma {:induction false} TicksUnclaimed(c: Core, inputs: seq<TickInput>)
    requires Unclaimed(c) && OkTicks(inputs, c.policy)
    ensures Ticks(c, inputs).dev == c.dev
    decreases |inputs|
  {
    if inputs != [] {
      TickUnclaimed(c, inputs[0]);
      TicksUnclaimed(Tick(c, inputs[0]), inputs[1..]);
    }
  }

  // ---- every run -----------------------------------------------------------------------------------

  lemma PolicyStreak(boot: BootInput, dev: Device, events: seq<Event>)
    ensures var c := Run(Initial(boot, dev), events).c; c.m.streak == c.policy.config.releaseOkStreak
  {
    ReachableInv(boot, dev, events);
    RunFits(Initial(boot, dev), events);
  }

  lemma HealthyOutcomeFrom(c: Core, inputs: seq<TickInput>)
    requires Inv(State(Idle, c)) && SlotsEmpty(c) && !c.busy && !c.software && InBrakeBand(c.dev)
    requires OkTicks(inputs, c.policy) && ResponsiveTicks(inputs) && |inputs| >= 10 * c.m.streak
    ensures var d := Ticks(c, inputs).dev; d.currentW == d.defaultW <==> c.m.brakeEngaged || Blocked(c)
  {
    assert AtRest(c) && c.m.streak >= 1;
    if c.m.brakeEngaged {
      LiftedByStreak(c, inputs, c.step, c.m.streak, c.policy);
    } else if Blocked(c) {
      var c', rest := AdoptedAndGoing(c, inputs);
      LiftedByStreak(c', rest, c.step, c.m.streak, c.policy);
    } else {
      TicksUnclaimed(c, inputs);
      BrakeTargetIsHalf(c.dev.defaultW);
    }
  }

  /**
   * The release, exactly. From any state any run reaches between iterations
   * with the relay's brake on the register, free slots and a free gate: if every
   * reading is healthy and the device cooperates, then after ten iterations for
   * each evaluation of the streak, and ever after, the limit is the default if
   * and only if the brake is claimed, or an apply that is still wanted waits at
   * the gate and is going to claim it. A braked register nobody claims stays as
   * it is.
   */
  lemma HealthyOutcome(boot: BootInput, dev: Device, events: seq<Event>, inputs: seq<TickInput>)
    requires var s := Run(Initial(boot, dev), events);
             && s.pc.Idle? && SlotsEmpty(s.c) && !s.c.software && !s.c.busy && InBrakeBand(s.c.dev)
             && OkTicks(inputs, s.c.policy) && ResponsiveTicks(inputs)
             && |inputs| >= 10 * s.c.policy.config.releaseOkStreak
    ensures var c := Run(Initial(boot, dev), events).c;
            var d := Ticks(c, inputs).dev;
            d.currentW == d.defaultW <==> c.m.brakeEngaged || Blocked(c)
  {
    ReachableInv(boot, dev, events);
    PolicyStreak(boot, dev, events);
    HealthyOutcomeFrom(Run(Initial(boot, dev), events).c, inputs);
  }
}
