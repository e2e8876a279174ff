/**
 * The emergency brake, end to end: from every state between iterations, what
 * fail-closed readings and a cooperating device do to the register.
 */
module SupervisorBraking {
  import opened Prelude
  import opened SafetyPolicies
  import opened Telemetry
  import opened PowerLimits
  import opened Assessments
  import opened SafetyMachines
  import opened Supervisors
  import opened SupervisorSafety
  import opened SupervisorResponse
  import opened SupervisorDispatch
  import opened SupervisorLoop
  import opened SupervisorProgress

  // ---- fail-closed iterations ------------------------------------------------------------

  /** Whatever the read brings, it is not a reason to leave the brake off. */
  predicate FailClosedRead(result: ReadResult, policy: ResolvedPolicy) {
    result.ReadValue? ==> FailClosed(ReadingOf(result.from, policy).kind)
  }

  predicate FailClosedTick(i: TickInput, policy: ResolvedPolicy) {
    FailClosedRead(i.read, policy) && FailClosedRead(i.brakeRead, policy) && FailClosedRead(i.releaseRead, policy)
  }

  ghost predicate FailClosedTicks(inputs: seq<TickInput>, policy: ResolvedPolicy) {
    forall k :: 0 <= k < |inputs| ==> FailClosedTick(inputs[k], policy)
  }

  ghost predicate ResponsiveTicks(inputs: seq<TickInput>) {
    forall k :: 0 <= k < |inputs| ==> Responsive(inputs[k])
  }

  lemma FailClosedAcquired(c: Core, holds: bool, result: ReadResult)
    requires !c.software && FailClosedRead(result, c.policy)
    ensures FailClosed(Acquired(c, holds, result).kind)
  {
  }

  /** After a fail-closed verdict nothing is wanted of an engaged brake, and Apply of any other. */
  lemma JudgedFailClosed(c: Core, reading: Reading)
    requires FailClosed(reading.kind)
    ensures Intent(Judge(c, reading).m) == (if c.m.brakeEngaged then NoIntent else Apply)
    ensures Evaluated(c.m, reading.kind).snap.intent == Intent(Judge(c, reading).m)
  {
  }

  // ---- the brake goes on ---------------------------------------------------------------------

  /** The relay may write its target, or finds it there already. */
  predicate Brakeable(dev: Device) {
    Seen(dev).AtOrAboveDefault? || InBrakeBand(dev)
  }

  /** No release is under way; the brake is claimed and there, or can still be put on. */
  predicate Braceable(c: Core) {
    && !c.software && c.release.Empty? && c.pending != Some(Release)
    && (if c.m.brakeEngaged then c.brake.Empty? && InBrakeBand(c.dev) else Brakeable(c.dev))
    && (Came(c.brake) && c.brake.result.Success? ==> InBrakeBand(c.dev))
  }

  /** How far the brake has come: failed, waiting, under way, claimed. */
  function Rank(c: Core): nat {
    if c.m.brakeEngaged then 3
    else if c.brake.Empty? then 1
    else if Came(c.brake) && c.brake.result.Failure? then 0
    else 2
  }

  predicate Onward(before: Core, c: Core) {
    Braceable(c) && c.policy == before.policy && Rank(before) <= Rank(c)
  }

  /** The brake is wanted, and the last dispatch found the gate taken. */
  predicate Blocked(c: Core) {
    c.pending == Some(Apply) && Intent(c.m) == Apply
  }

  lemma EnvOnward(c: Core, holds: bool, e: EnvEvent)
    requires Braceable(c) && (e.WorkerReturns? ==> Cooperates(e.input))
    ensures Onward(c, EnvStep(c, holds, e))
    ensures EnvStep(c, holds, e).pending == c.pending && EnvStep(c, holds, e).m == c.m
    ensures c.brake.Empty? ==> EnvStep(c, holds, e).brake.Empty?
    ensures c.brake.Finished? ==> EnvStep(c, holds, e).brake == c.brake
  {
    BrakeTargetIsHalf(c.dev.defaultW);
  }

  lemma {:induction false} EnvsOnward(c: Core, holds: bool, events: seq<EnvEvent>)
    requires Braceable(c) && CooperatingEnv(events)
    ensures Onward(c, EnvSteps(c, holds, events))
    ensures EnvSteps(c, holds, events).pending == c.pending && EnvSteps(c, holds, events).m == c.m
    ensures c.brake.Empty? ==> EnvSteps(c, holds, events).brake.Empty?
    ensures c.brake.Finished? ==> EnvSteps(c, holds, events).brake == c.brake
    decreases |events|
  {
    if events != [] {
      EnvOnward(c, holds, events[0]);
      EnvsOnward(EnvStep(c, holds, events[0]), holds, events[1..]);
    }
  }

  lemma DispatchOnward(c: Core, due: bool)
    requires Braceable(c) && (due ==> Intent(c.m) != Release)
    ensures Onward(c, DispatchDueOrPending(c, due)) && DispatchDueOrPending(c, due).m == c.m
  {
  }

  lemma BeginOnward(c: Core)
    requires Braceable(c)
    ensures Onward(c, BeginDispatch(c)) && BeginDispatch(c).m == c.m
    ensures Rank(c) == 1 && Blocked(c) && !c.busy ==> Rank(BeginDispatch(c)) == 2
    ensures c.brake.Finished? ==> BeginDispatch(c).brake == c.brake
  {
    DispatchOnward(c.(step := c.step + 1), false);
  }

  lemma CollectOnward(c: Core, reading: Reading)
    requires Braceable(c)
    ensures var s := CollectBrake(c, reading);
            && Onward(c, s.c)
            && (c.brake.Finished? ==> Rank(s.c) >= 1)
            && (s.pc.RereadingBrake? || (s.pc.CollectingRelease? && !s.pc.flags.evaluated && !s.pc.flags.due))
            && (c.brake.Empty? ==> s == State(CollectingRelease(reading, CLEAN_FLAGS), c))
            && (s.pc.CollectingRelease? && Rank(c) >= 1 && Rank(s.c) == 1 ==> s.pc.flags == CLEAN_FLAGS)
            && (s.pc.RereadingBrake? ==> s.pc.reading == reading && Rank(s.c) == 3)
            && (s.pc.CollectingRelease? ==> s.pc.reading == reading)
  {
  }

  lemma ReadOnward(c: Core, holds: bool, result: ReadResult)
    requires Braceable(c)
    ensures Onward(c, EndRead(c, holds, result)) && EndRead(c, holds, result).brake == c.brake
    ensures EndRead(c, holds, result).m == c.m
  {
  }

  lemma ReassessOnward(c: Core, holds: bool, result: ReadResult)
    requires Braceable(c) && FailClosedRead(result, c.policy)
    ensures Onward(c, Reassess(c, holds, result))
    ensures Intent(Reassess(c, holds, result).m) == (if c.m.brakeEngaged then NoIntent else Apply)
    ensures Reassess(c, holds, result).brake == c.brake && Reassess(c, holds, result).m.brakeEngaged == c.m.brakeEngaged
  {
    FailClosedAcquired(c, holds, result);
    ReadOnward(c, holds, result);
    JudgedFailClosed(EndRead(c, holds, result), Acquired(c, holds, result));
  }

  lemma FinishOnward(c: Core, reading: Reading, flags: Flags)
    requires Braceable(c) && FailClosed(reading.kind) && (flags.due ==> flags.evaluated && Intent(c.m) != Release)
    ensures Onward(c, Finish(c, reading, flags))
    ensures flags == CLEAN_FLAGS && c.step % 10 == 0 && Rank(Finish(c, reading, flags)) == 1 ==>
              Blocked(Finish(c, reading, flags))
    ensures flags.due && c.brake.Empty? && Intent(c.m) == Apply && Rank(Finish(c, reading, flags)) == 1 ==>
              Blocked(Finish(c, reading, flags))
  {
    JudgedFailClosed(c, reading);
    var c1, due := FinishJudge(c, reading, flags), FinishDue(c, reading, flags);
    DispatchOnward(c1, due);
    if due && SlotsEmpty(c1) && Intent(c1.m) == Apply {
      DispatchIsAnAttempt(c1, due);
    }
  }

  lemma ReadPhaseOnward(c: Core, i: TickInput)
    requires Braceable(c) && FailClosedTick(i, c.policy) && Responsive(i)
    ensures var s := AfterRead(c, i);
            && Onward(c, s.c) && s.c.step == c.step + 1 && FailClosed(s.pc.reading.kind)
            && (Rank(c) == 1 && Blocked(c) && !c.busy ==> Rank(s.c) >= 2)
            && (c.brake.Finished? ==> s.c.brake == c.brake)
  {
    BeginOnward(c);
    EnvsOnward(BeginDispatch(c), false, i.beforeRead);
    var s := StartTick(EnvSteps(BeginDispatch(c), false, i.beforeRead));
    EnvsOnward(s.c, s.pc.holds, i.duringRead);
    var c1 := EnvSteps(s.c, s.pc.holds, i.duringRead);
    ReadOnward(c1, s.pc.holds, i.read);
    FailClosedAcquired(c1, s.pc.holds, i.read);
    ReadCounts(c, i);
  }

  lemma BrakePhaseOnward(c: Core, reading: Reading, i: TickInput)
    requires Braceable(c) && FailClosedTick(i, c.policy) && Responsive(i)
    ensures var s := AfterBrake(c, reading, i);
            && Onward(c, s.c) && s.c.step == c.step
            && s.pc == CollectingRelease(reading, s.pc.flags)
            && (s.pc.flags.due ==> s.pc.flags.evaluated && Intent(s.c.m) != Release)
            && (c.brake.Finished? ==> Rank(s.c) >= 1)
            && (Rank(c) >= 1 && Rank(s.c) == 1 ==> s.pc.flags == CLEAN_FLAGS)
  {
    EnvsOnward(c, false, i.beforeBrake);
    var waited := EnvSteps(c, false, i.beforeBrake);
    CollectOnward(waited, reading);
    BrakeKeepsCount(c, reading, i);
    var s := CollectBrake(waited, reading);
    if s.pc.RereadingBrake? {
      EnvsOnward(s.c, s.pc.holds, i.duringBrake);
      ReassessOnward(EnvSteps(s.c, s.pc.holds, i.duringBrake), s.pc.holds, i.brakeRead);
    }
  }

  /** Nothing to collect among the release tasks while the brake is going on. */
  lemma NoReleaseToCollect(c: Core, reading: Reading, flags: Flags, i: TickInput)
    requires Braceable(c) && Responsive(i)
    ensures var s := AfterRelease(c, reading, flags, i);
            s == State(Finishing(reading, flags), s.c) && Onward(c, s.c) && s.c.m == c.m && s.c.step == c.step
  {
    EnvsOnward(c, false, i.beforeRelease);
    EnvStepsKeepCount(c, false, i.beforeRelease);
  }

  lemma AwakeOnward(c: Core, i: TickInput)
    requires Braceable(c) && FailClosedTick(i, c.policy) && Responsive(i)
    ensures var c' := Awake(c, i);
            && Onward(c, c')
            && (Rank(c) == 0 && c.brake.Finished? ==> Rank(c') >= 1)
            && (Rank(c) == 1 && (c.step + 1) % 10 == 0 && Rank(c') == 1 ==> Blocked(c'))
            && (Rank(c) == 1 && Blocked(c) && !c.busy ==> Rank(c') >= 2)
  {
    ReadPhaseOnward(c, i);
    var s1 := AfterRead(c, i);
    BrakePhaseOnward(s1.c, s1.pc.reading, i);
    var s2 := AfterBrake(s1.c, s1.pc.reading, i);
    NoReleaseToCollect(s2.c, s1.pc.reading, s2.pc.flags, i);
    var s3 := AfterRelease(s2.c, s1.pc.reading, s2.pc.flags, i);
    EnvsOnward(s3.c, false, i.beforeDispatch);
    EnvStepsKeepCount(s3.c, false, i.beforeDispatch);
    FinishOnward(EnvSteps(s3.c, false, i.beforeDispatch), s1.pc.reading, s3.pc.flags);
  }

  lemma TickOnward(c: Core, i: TickInput)
    requires Inv(State(Idle, c)) && Braceable(c) && FailClosedTick(i, c.policy) && Responsive(i)
    ensures var c' := Tick(c, i);
            && Onward(c, c') && AtRest(c') && Inv(State(Idle, c')) && c'.step == c.step + 1
            && (Rank(c) == 0 && c.brake.Finished? ==> Rank(c') >= 1)
            && (Rank(c) == 1 && c'.step % 10 == 0 && Rank(c') == 1 ==> Blocked(c'))
            && (Rank(c) == 1 && Blocked(c) && !c.busy ==> Rank(c') >= 2)
  {
    AwakeOnward(c, i);
    SleepOf(c, i);
    EnvsOnward(Awake(c, i), false, i.duringSleep);
    TickKeepsInv(c, i);
    TickCounts(c, i);
  }

  // ---- deadlines ------------------------------------------------------------------------------

  /** Waiting only before the deadline, or at it with the command blocked and the gate free again. */
  ghost predicate Bracing(c: Core, deadline: nat, policy: ResolvedPolicy) {
    && Inv(State(Idle, c)) && Braceable(c) && c.policy == policy && deadline % 10 == 0
    && Rank(c) >= 1
    && (Rank(c) == 1 ==> c.step < deadline || (c.step == deadline && Blocked(c) && !c.busy))
  }

  lemma TickOnTime(c: Core, i: TickInput, deadline: nat, policy: ResolvedPolicy)
    requires Bracing(c, deadline, policy) && FailClosedTick(i, policy) && Responsive(i)
    ensures Bracing(Tick(c, i), deadline, policy) && AtRest(Tick(c, i)) && Tick(c, i).step == c.step + 1
  {
    TickOnward(c, i);
  }

  lemma AfterOne(c: Core, inputs: seq<TickInput>, policy: ResolvedPolicy) returns (c': Core, rest: seq<TickInput>)
    requires inputs != [] && FailClosedTicks(inputs, policy) && ResponsiveTicks(inputs)
    ensures c' == Tick(c, inputs[0]) && Ticks(c, inputs) == Ticks(c', rest) && |rest| == |inputs| - 1
    ensures FailClosedTicks(rest, policy) && ResponsiveTicks(rest)
  {
    c', rest := Tick(c, inputs[0]), inputs[1..];
  }

  lemma OneOnTime(c: Core, inputs: seq<TickInput>, deadline: nat, policy: ResolvedPolicy)
    returns (c': Core, rest: seq<TickInput>)
    requires Bracing(c, deadline, policy) && FailClosedTicks(inputs, policy) && ResponsiveTicks(inputs) && inputs != []
    ensures Bracing(c', deadline, policy) && AtRest(c') && c'.step == c.step + 1 && |rest| == |inputs| - 1
    ensures Ticks(c, inputs) == Ticks(c', rest) && FailClosedTicks(rest, policy) && ResponsiveTicks(rest)
  {
    TickOnTime(c, inputs[0], deadline, policy);
    c', rest := AfterOne(c, inputs, policy);
  }

  lemma {:induction false} TicksOnTime(c: Core, inputs: seq<TickInput>, deadline: nat, policy: ResolvedPolicy)
    requires Bracing(c, deadline, policy) && FailClosedTicks(inputs, policy) && ResponsiveTicks(inputs)
    ensures Bracing(Ticks(c, inputs), deadline, policy) && Ticks(c, inputs).step == c.step + |inputs|
    ensures inputs != [] || AtRest(c) ==> AtRest(Ticks(c, inputs))
    decreases |inputs|
  {
    if inputs != [] {
      var c', rest := OneOnTime(c, inputs, deadline, policy);
      TicksOnTime(c', rest, deadline, policy);
    }
  }

  lemma PastDeadline(c: Core, deadline: nat, policy: ResolvedPolicy)
    requires Bracing(c, deadline, policy) && AtRest(c) && c.step > deadline
    ensures InBrakeBand(c.dev)
  {
  }

  /** With nothing failed to collect first, eleven iterations are enough. */
  lemma BracedByDeadline(c: Core, inputs: seq<TickInput>)
    requires Inv(State(Idle, c)) && Braceable(c) && Rank(c) >= 1 && |inputs| >= 11
    requires FailClosedTicks(inputs, c.policy) && ResponsiveTicks(inputs)
    ensures InBrakeBand(Ticks(c, inputs).dev)
  {
    TicksOnTime(c, inputs, Deadline(c), c.policy);
    PastDeadline(Ticks(c, inputs), Deadline(c), c.policy);
  }

  /** A brake already under way or claimed, or blocked at a gate that is free again. */
  ghost predicate NearlyBraced(c: Core, policy: ResolvedPolicy) {
    && Inv(State(Idle, c)) && Braceable(c) && c.policy == policy
    && (Rank(c) >= 2 || (Rank(c) == 1 && Blocked(c) && !c.busy))
  }

  lemma NextIsBracing(c: Core, i: TickInput, policy: ResolvedPolicy)
    requires NearlyBraced(c, policy) && FailClosedTick(i, policy) && Responsive(i)
    ensures Bracing(Tick(c, i), 0, policy) && AtRest(Tick(c, i)) && Tick(c, i).step > 0
    ensures NearlyBraced(Tick(c, i), policy)
  {
    TickOnward(c, i);
  }

  lemma BracedAtOnce(c: Core, inputs: seq<TickInput>, policy: ResolvedPolicy)
    requires NearlyBraced(c, policy)
    requires FailClosedTicks(inputs, policy) && ResponsiveTicks(inputs) && inputs != []
    ensures InBrakeBand(Ticks(c, inputs).dev)
  {
    NextIsBracing(c, inputs[0], policy);
    var c', rest := AfterOne(c, inputs, policy);
    TicksOnTime(c', rest, 0, policy);
    PastDeadline(Ticks(c', rest), 0, policy);
  }

  /** A failed apply is collected within two iterations. */
  lemma FailureCollected(c: Core, inputs: seq<TickInput>) returns (c': Core, rest: seq<TickInput>)
    requires Inv(State(Idle, c)) && Braceable(c) && |inputs| >= 2
    requires FailClosedTicks(inputs, c.policy) && ResponsiveTicks(inputs)
    ensures Inv(State(Idle, c')) && Braceable(c') && Rank(c') >= 1 && c'.policy == c.policy
    ensures Ticks(c, inputs) == Ticks(c', rest) && |rest| == |inputs| - 2
    ensures FailClosedTicks(rest, c.policy) && ResponsiveTicks(rest)
  {
    TickOnward(c, inputs[0]);
    c', rest := AfterOne(c, inputs, c.policy);
    TickOnward(c', rest[0]);
    c', rest := AfterOne(c', rest, c.policy);
  }

  /** Then the eleven begin. */
  lemma BracedFromFailure(c: Core, inputs: seq<TickInput>)
    requires Inv(State(Idle, c)) && Braceable(c) && |inputs| >= 13
    requires FailClosedTicks(inputs, c.policy) && ResponsiveTicks(inputs)
    ensures InBrakeBand(Ticks(c, inputs).dev)
  {
    var c', rest := FailureCollected(c, inputs);
    BracedByDeadline(c', rest);
  }

  // ---- a device that is gone, with the gate free ------------------------------------------------

  /** While a read holds the gate there is nobody else to return. */
  lemma {:induction false} QuietRead(c: Core, events: seq<EnvEvent>)
    requires c.readers == 1 && !Out(c.brake) && !Out(c.release)
    ensures EnvSteps(c, true, events) == c
    decreases |events|
  {
    if events != [] {
      QuietRead(c, events[1..]);
    }
  }

  lemma BeginsAtRest(c: Core)
    requires AtRest(c) && !Blocked(c)
    ensures var c' := BeginDispatch(c);
            AtRest(c') && c' == c.(step := c.step + 1, pending := c'.pending) && !Blocked(c')
  {
  }

  lemma BrakePhaseFromRest(c: Core, reading: Reading, i: TickInput)
    requires AtRest(c) && c.brake.Empty?
    ensures AfterBrake(c, reading, i) == State(CollectingRelease(reading, CLEAN_FLAGS), c)
  {
    RestIsQuiet(c, i.beforeBrake);
  }

  /** The device is not there, and the driver says so at once. */
  predicate PromptlyMissing(result: ReadResult, policy: ResolvedPolicy) {
    || result.ReadPanicked?
    || (result.ReadValue? && result.from.raw.source == NvmlUnavailable
        && FailClosed(ReadingOf(result.from, policy).kind))
  }

  /** The read phase from rest: the gate is free again afterwards, and the reading is that of a missing device. */
  lemma MissingRead(c: Core, i: TickInput)
    requires AtRest(c) && !Blocked(c) && !c.software && PromptlyMissing(i.read, c.policy)
    ensures var s := AfterRead(c, i);
            && AtRest(s.c) && s.c == c.(step := c.step + 1, pending := s.c.pending) && !Blocked(s.c)
            && FailClosed(s.pc.reading.kind) && s.pc.reading.from.raw.source == NvmlUnavailable
  {
    BeginsAtRest(c);
    RestIsQuiet(BeginDispatch(c), i.beforeRead);
    QuietRead(StartRead(BeginDispatch(c)), i.duringRead);
  }

  /** A new want is dispatched at once, and so is any on the cadence. */
  lemma MissingSpawns(c: Core, reading: Reading)
    requires AtRest(c) && SlotsEmpty(c) && !c.m.brakeEngaged && FailClosed(reading.kind)
    requires reading.from.raw.source == NvmlUnavailable
    requires Intent(c.m) != Apply || c.step == 1 || c.step % 10 == 0
    ensures Rank(Finish(c, reading, CLEAN_FLAGS)) == 2
  {
    JudgedFailClosed(c, reading);
    DispatchIsAnAttempt(FinishJudge(c, reading, CLEAN_FLAGS), true);
  }

  /** One iteration is enough, unless a failed command waits for its retry. */
  predicate ActsAtOnce(c: Core) {
    Intent(c.m) != Apply || c.pending == Some(Apply) || c.step == 0 || (c.step + 1) % 10 == 0
  }

  lemma AwakeMissing(c: Core, i: TickInput)
    requires AtRest(c) && SlotsEmpty(c) && !c.m.brakeEngaged && Braceable(c) && ActsAtOnce(c)
    requires PromptlyMissing(i.read, c.policy) && FailClosedTick(i, c.policy) && Responsive(i)
    ensures Onward(c, Awake(c, i)) && Rank(Awake(c, i)) >= 2
  {
    AwakeOnward(c, i);
    if !Blocked(c) {
      MissingRead(c, i);
      var s1 := AfterRead(c, i);
      BrakePhaseFromRest(s1.c, s1.pc.reading, i);
      RestIsQuiet(s1.c, i.beforeRelease);
      RestIsQuiet(s1.c, i.beforeDispatch);
      MissingSpawns(s1.c, s1.pc.reading);
    }
  }

  lemma TickMissing(c: Core, i: TickInput)
    requires Inv(State(Idle, c)) && AtRest(c) && SlotsEmpty(c) && !c.m.brakeEngaged && Braceable(c) && ActsAtOnce(c)
    requires PromptlyMissing(i.read, c.policy) && FailClosedTick(i, c.policy) && Responsive(i)
    ensures NearlyBraced(Tick(c, i), c.policy) && Rank(Tick(c, i)) >= 2 && AtRest(Tick(c, i))
  {
    AwakeMissing(c, i);
    SleepOf(c, i);
    EnvsOnward(Awake(c, i), false, i.duringSleep);
    TickKeepsInv(c, i);
  }

  lemma RestingIsBraced(c: Core)
    requires Braceable(c) && Rank(c) >= 2 && AtRest(c)
    ensures InBrakeBand(c.dev)
  {
  }

  lemma BracedWhenMissing(c: Core, inputs: seq<TickInput>)
    requires Inv(State(Idle, c)) && AtRest(c) && SlotsEmpty(c) && !c.m.brakeEngaged && Braceable(c) && ActsAtOnce(c)
    requires inputs != [] && PromptlyMissing(inputs[0].read, c.policy)
    requires FailClosedTicks(inputs, c.policy) && ResponsiveTicks(inputs)
    ensures InBrakeBand(Ticks(c, inputs).dev)
  {
    TickMissing(c, inputs[0]);
    var c', rest := AfterOne(c, inputs, c.policy);
    if rest == [] {
      RestingIsBraced(c');
    } else {
      BracedAtOnce(c', rest, c.policy);
    }
  }

  // ---- a release that is under way -----------------------------------------------------------

  /** The release may still come, or has come and waits to be collected. */
  predicate Retreating(c: Core) {
    && !c.software && c.brake.Empty? && c.m.brakeEngaged && c.pending != Some(Release)
    && ((c.release.Running? && InBrakeBand(c.dev))
        || (Came(c.release) && c.release.result.Success? && AtDefault(c.dev)))
  }

  /** `c` comes after `before`; a finished release stays finished. */
  predicate StillRetreating(before: Core, c: Core) {
    && Retreating(c) && c.policy == before.policy
    && (before.release.Finished? ==> c.release == before.release)
  }

  lemma EnvRetreats(c: Core, holds: bool, e: EnvEvent)
    requires Retreating(c) && (e.WorkerReturns? ==> Cooperates(e.input))
    ensures StillRetreating(c, EnvStep(c, holds, e))
  {
    BrakeTargetIsHalf(c.dev.defaultW);
  }

  lemma {:induction false} EnvsRetreat(c: Core, holds: bool, events: seq<EnvEvent>)
    requires Retreating(c) && CooperatingEnv(events)
    ensures StillRetreating(c, EnvSteps(c, holds, events))
    decreases |events|
  {
    if events != [] {
      EnvRetreats(c, holds, events[0]);
      EnvsRetreat(EnvStep(c, holds, events[0]), holds, events[1..]);
    }
  }

  lemma DispatchRetreats(c: Core, due: bool)
    requires Retreating(c)
    ensures StillRetreating(c, DispatchDueOrPending(c, due))
  {
  }

  lemma ReadPhaseRetreats(c: Core, i: TickInput)
    requires Retreating(c) && FailClosedTick(i, c.policy) && Responsive(i)
    ensures StillRetreating(c, AfterRead(c, i).c) && FailClosed(AfterRead(c, i).pc.reading.kind)
  {
    DispatchRetreats(c.(step := c.step + 1), false);
    EnvsRetreat(BeginDispatch(c), false, i.beforeRead);
    var s := StartTick(EnvSteps(BeginDispatch(c), false, i.beforeRead));
    EnvsRetreat(s.c, s.pc.holds, i.duringRead);
    FailClosedAcquired(EnvSteps(s.c, s.pc.holds, i.duringRead), s.pc.holds, i.read);
  }

  lemma BrakePhaseRetreats(c: Core, reading: Reading, i: TickInput)
    requires Retreating(c) && Responsive(i)
    ensures var s := AfterBrake(c, reading, i);
            s == State(CollectingRelease(reading, CLEAN_FLAGS), s.c) && StillRetreating(c, s.c)
  {
    EnvsRetreat(c, false, i.beforeBrake);
  }

  /** A collected release is judged on a fresh fail-closed frame, which wants the brake back. */
  lemma ReleasePhaseRetreats(c: Core, reading: Reading, i: TickInput)
    requires Retreating(c) && FailClosedTick(i, c.policy) && Responsive(i)
    ensures var s := AfterRelease(c, reading, CLEAN_FLAGS, i);
            && s.pc == Finishing(reading, s.pc.flags) && s.c.policy == c.policy
            && (if s.pc.flags == CLEAN_FLAGS then StillRetreating(c, s.c) && !c.release.Finished?
                else
                  && Braceable(s.c) && Rank(s.c) == 1 && Intent(s.c.m) == Apply
                  && s.pc.flags.due && s.pc.flags.evaluated)
  {
    EnvsRetreat(c, false, i.beforeRelease);
    var waited := EnvSteps(c, false, i.beforeRelease);
    var s := CollectRelease(waited, reading, CLEAN_FLAGS);
    if s.pc.RereadingRelease? {
      assert Braceable(s.c) && Rank(s.c) == 1;
      EnvsOnward(s.c, s.pc.holds, i.duringRelease);
      ReassessOnward(EnvSteps(s.c, s.pc.holds, i.duringRelease), s.pc.holds, i.releaseRead);
    }
  }

  /** One iteration takes a retreating brake to the dispatch of a new one, or waits for the release. */
  predicate TurnedRound(before: Core, c: Core) {
    && c.policy == before.policy
    && ((Retreating(c) && !before.release.Finished?)
        || (Braceable(c) && (Rank(c) >= 2 || (Rank(c) == 1 && Blocked(c)))))
  }

  lemma FinishRetreats(c: Core, reading: Reading, flags: Flags)
    requires FailClosed(reading.kind)
    requires if flags == CLEAN_FLAGS then Retreating(c)
             else Braceable(c) && Rank(c) == 1 && Intent(c.m) == Apply && flags.due && flags.evaluated
    ensures var c' := Finish(c, reading, flags);
            && c'.policy == c.policy
            && (if flags == CLEAN_FLAGS then Retreating(c')
                else Braceable(c') && (Rank(c') >= 2 || (Rank(c') == 1 && Blocked(c'))))
  {
    if flags == CLEAN_FLAGS {
      JudgedFailClosed(c, reading);
      DispatchRetreats(FinishJudge(c, reading, flags), FinishDue(c, reading, flags));
    } else {
      FinishOnward(c, reading, flags);
    }
  }

  lemma AwakeRetreats(c: Core, i: TickInput)
    requires Retreating(c) && FailClosedTick(i, c.policy) && Responsive(i)
    ensures TurnedRound(c, Awake(c, i))
  {
    ReadPhaseRetreats(c, i);
    var s1 := AfterRead(c, i);
    BrakePhaseRetreats(s1.c, s1.pc.reading, i);
    var s2 := AfterBrake(s1.c, s1.pc.reading, i);
    ReleasePhaseRetreats(s2.c, s1.pc.reading, i);
    var s3 := AfterRelease(s2.c, s1.pc.reading, CLEAN_FLAGS, i);
    if s3.pc.flags == CLEAN_FLAGS {
      EnvsRetreat(s3.c, false, i.beforeDispatch);
    } else {
      EnvsOnward(s3.c, false, i.beforeDispatch);
    }
    FinishRetreats(EnvSteps(s3.c, false, i.beforeDispatch), s1.pc.reading, s3.pc.flags);
  }

  lemma TickRetreats(c: Core, i: TickInput)
    requires Inv(State(Idle, c)) && Retreating(c) && FailClosedTick(i, c.policy) && Responsive(i)
    ensures var c' := Tick(c, i);
            TurnedRound(c, c') && AtRest(c') && Inv(State(Idle, c')) && (Retreating(c') ==> c'.release.Finished?)
  {
    AwakeRetreats(c, i);
    SleepOf(c, i);
    if Retreating(Awake(c, i)) {
      EnvsRetreat(Awake(c, i), false, i.duringSleep);
    } else {
      EnvsOnward(Awake(c, i), false, i.duringSleep);
    }
    TickKeepsInv(c, i);
  }

  lemma NextIsNearlyBraced(c: Core, i: TickInput, policy: ResolvedPolicy)
    requires Inv(State(Idle, c)) && c.policy == policy && FailClosedTick(i, policy) && Responsive(i)
    requires (Retreating(c) && c.release.Finished?) || NearlyBraced(c, policy)
    ensures NearlyBraced(Tick(c, i), policy)
  {
    if Retreating(c) {
      TickRetreats(c, i);
    } else {
      NextIsBracing(c, i, policy);
    }
  }

  /** The release completes and is collected within two iterations. */
  lemma ReleaseCollected(c: Core, inputs: seq<TickInput>) returns (c': Core, rest: seq<TickInput>)
    requires Inv(State(Idle, c)) && Retreating(c) && |inputs| >= 2
    requires FailClosedTicks(inputs, c.policy) && ResponsiveTicks(inputs)
    ensures NearlyBraced(c', c.policy)
    ensures Ticks(c, inputs) == Ticks(c', rest) && |rest| == |inputs| - 2
    ensures FailClosedTicks(rest, c.policy) && ResponsiveTicks(rest)
  {
    TickRetreats(c, inputs[0]);
    c', rest := AfterOne(c, inputs, c.policy);
    NextIsNearlyBraced(c', rest[0], c.policy);
    c', rest := AfterOne(c', rest, c.policy);
  }

  /** In the third the brake is back. */
  lemma BracedAfterRelease(c: Core, inputs: seq<TickInput>)
    requires Inv(State(Idle, c)) && Retreating(c) && |inputs| >= 3
    requires FailClosedTicks(inputs, c.policy) && ResponsiveTicks(inputs)
    ensures InBrakeBand(Ticks(c, inputs).dev)
  {
    var c', rest := ReleaseCollected(c, inputs);
    BracedAtOnce(c', rest, c.policy);
  }

  // ---- a claim that keeps the brake off -------------------------------------------------------

  /** The brake is claimed and no release can move the limit any more. */
  predicate Stuck(c: Core) {
    && !c.software && c.brake.Empty? && c.m.brakeEngaged && c.pending != Some(Release)
    && (Came(c.release) ==> c.release.result.Failure?)
    && (c.release.Running? ==> !InBrakeBand(c.dev))
  }

  predicate StillStuck(before: Core, c: Core) {
    Stuck(c) && c.dev == before.dev && c.policy == before.policy
  }

  lemma EnvStuck(c: Core, holds: bool, e: EnvEvent)
    requires Stuck(c)
    ensures StillStuck(c, EnvStep(c, holds, e))
  {
    if e.WorkerReturns? {
      ReleaseJobEffect(c.dev, e.input);
    }
  }

  lemma {:induction false} EnvsStuck(c: Core, holds: bool, events: seq<EnvEvent>)
    requires Stuck(c)
    ensures StillStuck(c, EnvSteps(c, holds, events))
    decreases |events|
  {
    if events != [] {
      EnvStuck(c, holds, events[0]);
      EnvsStuck(EnvStep(c, holds, events[0]), holds, events[1..]);
    }
  }

  lemma DispatchStuck(c: Core, due: bool)
    requires Stuck(c) && (due ==> Intent(c.m) != Release)
    ensures StillStuck(c, DispatchDueOrPending(c, due))
  {
  }

  lemma FinishStuck(c: Core, reading: Reading, flags: Flags)
    requires Stuck(c) && FailClosed(reading.kind) && !flags.due && !flags.evaluated
    ensures StillStuck(c, Finish(c, reading, flags))
  {
    JudgedFailClosed(c, reading);
    DispatchStuck(FinishJudge(c, reading, flags), FinishDue(c, reading, flags));
  }

  lemma ReadPhaseStuck(c: Core, i: TickInput)
    requires Stuck(c) && FailClosedTick(i, c.policy)
    ensures StillStuck(c, AfterRead(c, i).c) && FailClosed(AfterRead(c, i).pc.reading.kind)
  {
    DispatchStuck(c.(step := c.step + 1), false);
    EnvsStuck(BeginDispatch(c), false, i.beforeRead);
    var s := StartTick(EnvSteps(BeginDispatch(c), false, i.beforeRead));
    EnvsStuck(s.c, s.pc.holds, i.duringRead);
    FailClosedAcquired(EnvSteps(s.c, s.pc.holds, i.duringRead), s.pc.holds, i.read);
  }

  lemma CollectStuck(c: Core, reading: Reading, i: TickInput)
    requires Stuck(c)
    ensures var s := AfterBrake(c, reading, i);
            && s == State(CollectingRelease(reading, CLEAN_FLAGS), s.c) && StillStuck(c, s.c)
            && var s' := AfterRelease(s.c, reading, CLEAN_FLAGS, i);
               && s'.pc == Finishing(reading, s'.pc.flags) && !s'.pc.flags.due && !s'.pc.flags.evaluated
               && StillStuck(c, s'.c)
  {
    EnvsStuck(c, false, i.beforeBrake);
    EnvsStuck(EnvSteps(c, false, i.beforeBrake), false, i.beforeRelease);
  }

  lemma TickStuck(c: Core, i: TickInput)
    requires Stuck(c) && FailClosedTick(i, c.policy)
    ensures StillStuck(c, Tick(c, i))
  {
    ReadPhaseStuck(c, i);
    var s1 := AfterRead(c, i);
    CollectStuck(s1.c, s1.pc.reading, i);
    var s2 := AfterBrake(s1.c, s1.pc.reading, i);
    var s3 := AfterRelease(s2.c, s1.pc.reading, CLEAN_FLAGS, i);
    EnvsStuck(s3.c, false, i.beforeDispatch);
    FinishStuck(EnvSteps(s3.c, false, i.beforeDispatch), s1.pc.reading, s3.pc.flags);
    EnvsStuck(Awake(c, i), false, i.duringSleep);
  }

  /** Whatever the workers do: fail-closed readings never move the limit of a stuck claim. */
  lemma {:induction false} TicksStuck(c: Core, inputs: seq<TickInput>)
    requires Stuck(c) && FailClosedTicks(inputs, c.policy)
    ensures StillStuck(c, Ticks(c, inputs))
    decreases |inputs|
  {
    if inputs != [] {
      TickStuck(c, inputs[0]);
      TicksStuck(Tick(c, inputs[0]), inputs[1..]);
    }
  }

  // ---- every run --------------------------------------------------------------------------------

  /** Where fail-closed readings take the register from here. */
  predicate EndsBraked(c: Core) {
    if c.m.brakeEngaged then InBrakeBand(c.dev) || (Came(c.release) && c.release.result.Success?)
    else Brakeable(c.dev)
  }

  /** What every run brings with it to the points between iterations. */
  ghost predicate Reached(c: Core) {
    Inv(State(Idle, c)) && SuccessShows(c) && c.pending != Some(Release)
  }

  lemma ReachedBetweenIterations(boot: BootInput, dev: Device, events: seq<Event>)
    ensures var s := Run(Initial(boot, dev), events); s.pc.Idle? ==> Reached(s.c)
  {
    ReachableInv(boot, dev, events);
    ReachableShows(boot, dev, events);
    ReleaseIsNeverBlocked(boot, dev, events);
  }

  lemma TicksKeepForeign(c: Core, inputs: seq<TickInput>)
    requires Inv(State(Idle, c)) && !Brakeable(c.dev)
    ensures Ticks(c, inputs).dev == c.dev
  {
    var events := TicksAreARun(c, inputs);
    DeviceTrail(State(Idle, c), events);
  }

  lemma OutcomeFrom(c: Core, inputs: seq<TickInput>)
    requires Reached(c) && !c.software && FailClosedTicks(inputs, c.policy) && ResponsiveTicks(inputs)
    requires |inputs| >= if SlotsEmpty(c) then 11 else if c.release.Running? then 3 else 13
    ensures InBrakeBand(Ticks(c, inputs).dev) <==> EndsBraked(c)
  {
    if Stuck(c) {
      TicksStuck(c, inputs);
    } else if Retreating(c) {
      BracedAfterRelease(c, inputs);
    } else if !Brakeable(c.dev) {
      TicksKeepForeign(c, inputs);
    } else if SlotsEmpty(c) {
      BracedByDeadline(c, inputs);
    } else {
      BracedFromFailure(c, inputs);
    }
  }

  /**
   * The emergency brake, exactly. From any state any run reaches between
   * iterations, with telemetry that is fail-closed or missing from then on and a
   * device that cooperates, the limit is in the brake band after thirteen
   * iterations and ever after if and only if
   *   - no brake is claimed, and the limit is the relay's to move or in the band, or
   *   - a brake is claimed, and the limit is in the band or a release has just
   *     succeeded and waits to be collected.
   * Reads may keep timing out and hold the gate. Eleven iterations are enough
   * with free slots, three with a release under way. What is left out by the
   * condition is a claim that the register does not bear out.
   */
  lemma FailClosedOutcome(boot: BootInput, dev: Device, events: seq<Event>, inputs: seq<TickInput>)
    requires var s := Run(Initial(boot, dev), events);
             && s.pc.Idle? && !s.c.software
             && FailClosedTicks(inputs, s.c.policy) && ResponsiveTicks(inputs)
             && |inputs| >= if SlotsEmpty(s.c) then 11 else if s.c.release.Running? then 3 else 13
    ensures var c := Run(Initial(boot, dev), events).c;
            InBrakeBand(Ticks(c, inputs).dev) <==> EndsBraked(c)
  {
    ReachedBetweenIterations(boot, dev, events);
    OutcomeFrom(Run(Initial(boot, dev), events).c, inputs);
  }

  lemma MissingOutcomeFrom(c: Core, inputs: seq<TickInput>)
    requires Reached(c) && !c.software && SlotsEmpty(c) && !c.busy && ActsAtOnce(c)
    requires inputs != [] && PromptlyMissing(inputs[0].read, c.policy)
    requires FailClosedTicks(inputs, c.policy) && ResponsiveTicks(inputs)
    ensures InBrakeBand(Ticks(c, inputs).dev) <==> EndsBraked(c)
  {
    if Stuck(c) {
      TicksStuck(c, inputs);
    } else if !Brakeable(c.dev) {
      TicksKeepForeign(c, inputs);
    } else {
      BracedWhenMissing(c, inputs);
    }
  }

  /**
   * A device that is gone is braked within the very iteration that finds it
   * gone: from any state any run reaches between iterations with free slots and a
   * free gate, if the read reports the device missing and gives the gate back.
   * The condition is the same as above; what is excepted is an Apply that has
   * failed and waits for its retry on the cadence.
   */
  lemma MissingDeviceOutcome(boot: BootInput, dev: Device, events: seq<Event>, inputs: seq<TickInput>)
    requires var s := Run(Initial(boot, dev), events);
             && s.pc.Idle? && !s.c.software && SlotsEmpty(s.c) && !s.c.busy && ActsAtOnce(s.c)
             && inputs != [] && PromptlyMissing(inputs[0].read, s.c.policy)
             && FailClosedTicks(inputs, s.c.policy) && ResponsiveTicks(inputs)
    ensures var c := Run(Initial(boot, dev), events).c;
            InBrakeBand(Ticks(c, inputs).dev) <==> EndsBraked(c)
  {
    ReachedBetweenIterations(boot, dev, events);
    MissingOutcomeFrom(Run(Initial(boot, dev), events).c, inputs);
  }

  // ---- in terms of what was read ----------------------------------------------------------------

  /** Not a simulation, and not a complete, plausible, timely frame with both values at or below critical. */
  predicate Distrusted(a: Acquisition, policy: ResolvedPolicy) {
    && a.raw.source != SoftwareFallback
    && (Judgeable(a.raw, a.now, a.cadenceMs, policy) ==> OverCritical(a.raw, policy))
  }

  lemma DistrustedExactly(a: Acquisition, policy: ResolvedPolicy)
    ensures FailClosed(ReadingOf(a, policy).kind) <==> Distrusted(a, policy)
  {
    VerdictsExactly(a.raw, a.now, a.cadenceMs, UNSTAMPED, policy);
  }

  predicate DistrustedRead(result: ReadResult, policy: ResolvedPolicy) {
    result.ReadValue? ==> Distrusted(result.from, policy)
  }

  predicate DistrustedTick(i: TickInput, policy: ResolvedPolicy) {
    DistrustedRead(i.read, policy) && DistrustedRead(i.brakeRead, policy) && DistrustedRead(i.releaseRead, policy)
  }

  lemma DistrustedTicksFailClosed(inputs: seq<TickInput>, policy: ResolvedPolicy)
    requires forall k :: 0 <= k < |inputs| ==> DistrustedTick(inputs[k], policy)
    ensures FailClosedTicks(inputs, policy)
  {
    forall k | 0 <= k < |inputs| ensures FailClosedTick(inputs[k], policy) {
      DistrustedTickFailsClosed(inputs[k], policy);
    }
  }

  lemma DistrustedTickFailsClosed(i: TickInput, policy: ResolvedPolicy)
    requires DistrustedTick(i, policy)
    ensures FailClosedTick(i, policy)
  {
    forall result | result in {i.read, i.brakeRead, i.releaseRead} && result.ReadValue?
      ensures FailClosed(ReadingOf(result.from, policy).kind)
    {
      DistrustedExactly(result.from, policy);
    }
  }

  /**
   * The same outcome, in terms of the acquisitions themselves: when no read
   * brings a complete, plausible and timely frame of a real device with both
   * values at or below critical, the brake ends up on under exactly that
   * condition, within the same bounds.
   */
  lemma DistrustedOutcome(boot: BootInput, dev: Device, events: seq<Event>, inputs: seq<TickInput>)
    requires var s := Run(Initial(boot, dev), events);
             && s.pc.Idle? && !s.c.software
             && (forall k :: 0 <= k < |inputs| ==> DistrustedTick(inputs[k], s.c.policy)) && ResponsiveTicks(inputs)
             && |inputs| >= if SlotsEmpty(s.c) then 11 else if s.c.release.Running? then 3 else 13
    ensures var c := Run(Initial(boot, dev), events).c;
            InBrakeBand(Ticks(c, inputs).dev) <==> EndsBraked(c)
  {
    DistrustedTicksFailClosed(inputs, Run(Initial(boot, dev), events).c.policy);
    FailClosedOutcome(boot, dev, events, inputs);
  }
}
