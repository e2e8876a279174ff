/** What every reachable supervisor state guarantees, whatever the environment does. */
module SupervisorSafety {
  import opened Prelude
  import opened PowerLimits
  import opened Assessments
  import opened SafetyMachines
  import opened Supervisors

  // ---- reading the history -------------------------------------------------------

  lemma {:induction false} OkSuffixIsMaximal(kinds: seq<AssessmentKind>)
    ensures OkSuffix(kinds) <= |kinds|
    ensures forall i :: |kinds| - OkSuffix(kinds) <= i < |kinds| ==> kinds[i] == Ok
    ensures OkSuffix(kinds) < |kinds| ==> kinds[|kinds| - OkSuffix(kinds) - 1] != Ok
  {
    if kinds != [] && kinds[|kinds| - 1] == Ok {
      OkSuffixIsMaximal(kinds[..|kinds| - 1]);
    }
  }

  lemma {:induction false} KindsAt(readings: seq<Reading>)
    ensures |Kinds(readings)| == |readings|
    ensures forall i :: 0 <= i < |readings| ==> Kinds(readings)[i] == readings[i].kind
  {
    if readings != [] {
      KindsAt(readings[..|readings| - 1]);
    }
  }

  /** No boot and no spawned command between `p` and `h`. */
  ghost predicate QuietSince(p: History, h: History) {
    p == h || (h.Then? && !h.last.Boot? && !(h.last.Attempt? && h.last.spawned) && QuietSince(p, h.past))
  }

  /** What `ReleaseAuthorised` says, spelled out on the history. */
  lemma {:induction false} AuthorisedRelease(h: History) returns (before: History)
    requires ReleaseAuthorised(h)
    ensures QuietSince(Then(before, Attempt(Release, true)), h)
    ensures SessionPolicy(before) == SessionPolicy(h)
    ensures var evaluations := EngagedEvaluations(before);
            && SessionStreak(h) <= |evaluations|
            && forall i :: |evaluations| - SessionStreak(h) <= i < |evaluations| ==> evaluations[i].kind == Ok
  {
    if h.last.Attempt? && h.last.spawned {
      before := h.past;
      OkSuffixIsMaximal(Kinds(EngagedEvaluations(before)));
      KindsAt(EngagedEvaluations(before));
    } else {
      before := AuthorisedRelease(h.past);
    }
  }

  // ---- the invariant --------------------------------------------------------------

  function Live(slot: Slot): nat {
    if slot.Running? then 1 else 0
  }

  ghost predicate SingleFlight(c: Core, holds: bool) {
    && c.readers + Live(c.brake) + Live(c.release) == (if c.busy then 1 else 0)
    && (holds ==> c.readers == 1)
    && (c.brake.Empty? || c.release.Empty?)
  }

  ghost predicate ClaimsFit(c: Core) {
    && (!c.brake.Empty? ==> !c.m.brakeEngaged)
    && (!c.release.Empty? ==> c.m.brakeEngaged && ReleaseAuthorised(c.h))
  }

  ghost predicate StreakFits(c: Core) {
    && c.m.streak == SessionStreak(c.h) && c.m.streak >= 1
    && c.m.okCount == Min(OkStreak(c.h), U32_MAX)
    && (!c.m.brakeEngaged ==> EngagedEvaluations(c.h) == [])
  }

  /** A healthy verdict is only ever held about a disengaged brake. */
  ghost predicate VerdictFits(c: Core) {
    c.m.lastPolicyState == HealthyReal ==> !c.m.brakeEngaged
  }

  ghost predicate CoreInv(c: Core, holds: bool) {
    SingleFlight(c, holds) && ClaimsFit(c) && StreakFits(c)
  }

  /** Between a completed apply and its forced re-evaluation the verdict may be out of date. */
  predicate AwaitsVerdict(pc: Pc) {
    pc.RereadingBrake? || pc.Stopped?
  }

  ghost predicate Inv(s: State) {
    CoreInv(s.c, Holds(s.pc)) && (!AwaitsVerdict(s.pc) ==> VerdictFits(s.c))
  }

  lemma StartedInv(boot: BootInput, dev: Device, h: History)
    ensures CoreInv(Started(boot, dev, h), false) && VerdictFits(Started(boot, dev, h))
  {
    assert SessionPolicy(Then(h, Boot(boot.policy))) == Some(boot.policy);
  }

  lemma KindsOfAppend(readings: seq<Reading>, reading: Reading)
    ensures Kinds(readings + [reading]) == Kinds(readings) + [reading.kind]
  {
    assert (readings + [reading])[..|readings|] == readings;
  }

  lemma JudgeExtendsStreak(h: History, reading: Reading, engaged: bool)
    ensures var h' := Then(h, Judged(reading, engaged));
            && OkStreak(h') == (if engaged && reading.kind == Ok then OkStreak(h) + 1 else 0)
            && (!engaged ==> EngagedEvaluations(h') == [])
            && SessionStreak(h') == SessionStreak(h)
  {
    if engaged {
      KindsOfAppend(EngagedEvaluations(h), reading);
      OkSuffixOfAppend(Kinds(EngagedEvaluations(h)), reading.kind);
    }
  }

  lemma JudgeKeepsStreak(c: Core, reading: Reading)
    requires StreakFits(c)
    ensures StreakFits(Judge(c, reading)) && VerdictFits(Judge(c, reading))
  {
    JudgeExtendsStreak(c.h, reading, c.m.brakeEngaged);
  }

  lemma JudgeKeepsSlots(c: Core, reading: Reading, holds: bool)
    requires SingleFlight(c, holds) && ClaimsFit(c)
    ensures SingleFlight(Judge(c, reading), holds) && ClaimsFit(Judge(c, reading))
  {
  }

  lemma JudgeInv(c: Core, reading: Reading, holds: bool)
    requires CoreInv(c, holds)
    ensures CoreInv(Judge(c, reading), holds) && VerdictFits(Judge(c, reading))
  {
    JudgeKeepsStreak(c, reading);
    JudgeKeepsSlots(c, reading, holds);
  }

  /** A Release intent can only be dispatched on a complete streak. */
  lemma ReleaseIntentMeansFullStreak(c: Core)
    requires StreakFits(c) && VerdictFits(c)
    ensures Intent(c.m) == Release ==> c.m.brakeEngaged && OkStreak(c.h) >= SessionStreak(c.h)
    ensures Intent(c.m) == Apply ==> !c.m.brakeEngaged
  {
  }

  lemma DispatchInv(c: Core, due: bool)
    requires CoreInv(c, false) && VerdictFits(c)
    ensures CoreInv(DispatchDueOrPending(c, due), false) && VerdictFits(DispatchDueOrPending(c, due))
  {
    ReleaseIntentMeansFullStreak(c);
  }

  lemma StartReadInv(c: Core)
    requires CoreInv(c, false)
    ensures CoreInv(StartRead(c), ReadTakesPermit(c))
  {
  }

  lemma EndReadInv(c: Core, holds: bool, result: ReadResult)
    requires CoreInv(c, holds)
    ensures CoreInv(EndRead(c, holds, result), false)
  {
  }

  lemma ReportInv(c: Core, outcome: ActuatorOutcome)
    requires SingleFlight(c, false) && StreakFits(c) && c.brake.Empty? && c.release.Empty?
    requires outcome.Applied? || outcome.ApplyFailed? ==> !c.m.brakeEngaged
    ensures CoreInv(Report(c, outcome), false)
    ensures VerdictFits(c) && !outcome.Applied? ==> VerdictFits(Report(c, outcome))
  {
  }

  lemma WorkerInv(c: Core, holds: bool, input: JobInput)
    requires CoreInv(c, holds)
    ensures CoreInv(WorkerStep(c, input), holds)
  {
  }

  lemma TaskInv(c: Core, holds: bool)
    requires CoreInv(c, holds)
    ensures CoreInv(TaskStep(c), holds)
  {
  }

  lemma JoinInv(c: Core)
    requires CoreInv(c, false)
    ensures CoreInv(JoinApply(c), false) && CoreInv(JoinRelease(c), false)
  {
    if c.brake.Finished? {
      ReportInv(c.(brake := Empty), ApplyOutcome(c.brake.result));
    }
    if c.release.Finished? {
      ReportInv(c.(release := Empty), ReleaseOutcome(c.release.result));
    }
  }

  lemma ShutdownInv(c: Core, input: JobInput, timedOut: bool)
    requires CoreInv(c, false)
    ensures CoreInv(Shutdown(c, input, timedOut), false)
  {
    JoinInv(c);
    WorkerInv(c, false, input);
    TaskInv(WorkerStep(c, input), false);
    JoinInv(TaskStep(WorkerStep(c, input)));
  }

  lemma BeginDispatchInv(c: Core)
    requires CoreInv(c, false) && VerdictFits(c)
    ensures CoreInv(BeginDispatch(c), false) && VerdictFits(BeginDispatch(c))
  {
    CountingInv(c);
    DispatchInv(c.(step := c.step + 1), false);
  }

  lemma CountingInv(c: Core)
    requires CoreInv(c, false) && VerdictFits(c)
    ensures CoreInv(c.(step := c.step + 1), false) && VerdictFits(c.(step := c.step + 1))
  {
  }

  lemma CollectBrakeInv(c: Core, reading: Reading)
    requires CoreInv(c, false) && VerdictFits(c)
    ensures Inv(CollectBrake(c, reading))
  {
    if c.brake.Finished? {
      ReportInv(c.(brake := Empty), ApplyOutcome(c.brake.result));
      StartReadInv(Report(c.(brake := Empty), ApplyOutcome(c.brake.result)));
    }
  }

  lemma CollectReleaseInv(c: Core, reading: Reading, flags: Flags)
    requires CoreInv(c, false) && VerdictFits(c)
    ensures Inv(CollectRelease(c, reading, flags))
  {
    if c.release.Finished? {
      ReportInv(c.(release := Empty), ReleaseOutcome(c.release.result));
      StartReadInv(Report(c.(release := Empty), ReleaseOutcome(c.release.result)));
    }
  }

  lemma FinishInv(c: Core, reading: Reading, flags: Flags)
    requires CoreInv(c, false) && VerdictFits(c)
    ensures CoreInv(Finish(c, reading, flags), false) && VerdictFits(Finish(c, reading, flags))
  {
    JudgeInv(c, reading, false);
    DispatchInv(FinishJudge(c, reading, flags), FinishDue(c, reading, flags));
  }

  lemma ProceedInv(s: State)
    requires Inv(s)
    ensures Inv(Step(s, Proceed))
  {
    match s.pc
    case Idle => BeginDispatchInv(s.c);
    case Starting => StartReadInv(s.c);
    case CollectingBrake(reading) => CollectBrakeInv(s.c, reading);
    case CollectingRelease(reading, flags) => CollectReleaseInv(s.c, reading, flags);
    case Finishing(reading, flags) => FinishInv(s.c, reading, flags);
    case _ =>
  }

  lemma ReadEndsInv(s: State, result: ReadResult)
    requires Inv(s)
    ensures Inv(Step(s, ReadEnds(result)))
  {
    var holds := Holds(s.pc);
    EndReadInv(s.c, holds, result);
    JudgeInv(EndRead(s.c, holds, result), Acquired(s.c, holds, result), false);
  }

  lemma EnvironmentInv(c: Core, holds: bool, env: EnvEvent)
    requires CoreInv(c, holds)
    ensures CoreInv(EnvStep(c, holds, env), holds) && EnvStep(c, holds, env).m == c.m
  {
    match env
    case WorkerReturns(input) => WorkerInv(c, holds, input);
    case TaskFinishes => TaskInv(c, holds);
    case LateReaderReturns =>
  }

  lemma StepInv(s: State, e: Event)
    requires Inv(s)
    ensures Inv(Step(s, e))
  {
    match e
    case Proceed => ProceedInv(s);
    case ReadEnds(result) => ReadEndsInv(s, result);
    case Environment(env) =>
      EnvironmentInv(s.c, Holds(s.pc), env);
    case Signal(input, timedOut) => ShutdownInv(s.c, input, timedOut);
    case Crash(input, boot) => StartedInv(boot, WorkerStep(s.c, input).dev, s.c.h);
  }

  lemma {:induction false} RunInv(s: State, events: seq<Event>)
    requires Inv(s)
    ensures Inv(Run(s, events))
    decreases |events|
  {
    if events != [] {
      StepInv(s, events[0]);
      RunInv(Step(s, events[0]), events[1..]);
    }
  }

  lemma ReachableInv(boot: BootInput, dev: Device, events: seq<Event>)
    ensures Inv(Run(Initial(boot, dev), events))
  {
    StartedInv(boot, dev, Start);
    RunInv(Initial(boot, dev), events);
  }

  // ---- theorems over every run ------------------------------------------------------

  /**
   * No brake is lifted without the streak. Whatever frames arrive, commands do
   * (including failed commands that took effect), reads block, processes crash
   * and restart: a step that takes the limit out of the brake band is the step
   * of a release worker, the command was spawned in this very session, and the
   * last `release_ok_streak` evaluations before it were Ok and made while the
   * brake was engaged without interruption.
   */
  lemma BrakeLeavesOnlyByAuthorisedRelease(boot: BootInput, dev: Device, events: seq<Event>, e: Event)
    returns (before: History)
    ensures var s := Run(Initial(boot, dev), events);
            InBrakeBand(s.c.dev) && !InBrakeBand(Step(s, e).c.dev) ==>
              && s.c.release.Running?
              && QuietSince(Then(before, Attempt(Release, true)), s.c.h)
              && SessionPolicy(before) == SessionPolicy(s.c.h)
              && var evaluations := EngagedEvaluations(before);
                 var streak := SessionStreak(s.c.h);
                 && 1 <= streak == s.c.m.streak && streak <= |evaluations|
                 && forall i :: |evaluations| - streak <= i < |evaluations| ==> evaluations[i].kind == Ok
  {
    var s := Run(Initial(boot, dev), events);
    ReachableInv(boot, dev, events);
    before := Start;
    if InBrakeBand(s.c.dev) && !InBrakeBand(Step(s, e).c.dev) {
      DeviceMoves(s, e);
      before := AuthorisedRelease(s.c.h);
    }
  }

  /** A move of the register along the brake cycle, by the worker that may make it. */
  ghost predicate CycleMove(c: Core, d': Device) {
    var d := c.dev;
    && d'.defaultW == d.defaultW
    && (d' != d ==>
          || (c.brake.Running? && Seen(d).AtOrAboveDefault? && d'.currentW == d.defaultW / 2 && InBrakeBand(d'))
          || (c.release.Running? && InBrakeBand(d) && d'.currentW == d.defaultW && !InBrakeBand(d')))
  }

  lemma WorkerMoves(c: Core, input: JobInput)
    requires c.brake.Empty? || c.release.Empty?
    ensures CycleMove(c, WorkerStep(c, input).dev)
  {
    ApplyJobEffect(c.dev, input);
    ReleaseJobEffect(c.dev, input);
  }

  /** Outside the workers nothing touches the register. */
  lemma DispatchKeepsDevice(c: Core, due: bool)
    ensures DispatchDueOrPending(c, due).dev == c.dev
  {
  }

  lemma ProceedKeepsDevice(s: State)
    ensures Step(s, Proceed).c.dev == s.c.dev
  {
    match s.pc
    case Idle => DispatchKeepsDevice(s.c.(step := s.c.step + 1), false);
    case Finishing(reading, flags) =>
      DispatchKeepsDevice(FinishJudge(s.c, reading, flags), FinishDue(s.c, reading, flags));
    case _ =>
  }

  /** The register moves only when a worker acts, and only along the brake cycle. */
  lemma DeviceMoves(s: State, e: Event)
    requires Inv(s)
    ensures CycleMove(s.c, Step(s, e).c.dev)
  {
    match e
    case Proceed => ProceedKeepsDevice(s);
    case ReadEnds(_) =>
    case Environment(env) =>
      if env.WorkerReturns? {
        WorkerMoves(s.c, env.input);
      }
    case Signal(input, _) => WorkerMoves(s.c, input);
    case Crash(input, _) => WorkerMoves(s.c, input);
  }

  /** `ok_count` is the saturated length of the all-Ok suffix since the brake became engaged, and 0 while it is not. */
  lemma StreakMeaning(boot: BootInput, dev: Device, events: seq<Event>)
    ensures var c := Run(Initial(boot, dev), events).c;
            var kinds := Kinds(EngagedEvaluations(c.h));
            && c.m.okCount == Min(OkSuffix(kinds), U32_MAX)
            && OkSuffix(kinds) <= |kinds|
            && (forall i :: |kinds| - OkSuffix(kinds) <= i < |kinds| ==> kinds[i] == Ok)
            && (OkSuffix(kinds) < |kinds| ==> kinds[|kinds| - OkSuffix(kinds) - 1] != Ok)
            && (!c.m.brakeEngaged ==> kinds == [] && c.m.okCount == 0)
  {
    ReachableInv(boot, dev, events);
    OkSuffixIsMaximal(Kinds(EngagedEvaluations(Run(Initial(boot, dev), events).c.h)));
  }

  /**
   * At both points where the loop dispatches, in every run: a Release intent
   * stands on an engaged brake and a complete streak of this session, an Apply
   * intent on a disengaged brake.
   */
  lemma DispatchedIntentsAreEarned(boot: BootInput, dev: Device, events: seq<Event>)
    ensures var s := Run(Initial(boot, dev), events);
            var c := if s.pc.Finishing? then FinishJudge(s.c, s.pc.reading, s.pc.flags) else s.c;
            s.pc.Idle? || s.pc.Finishing? ==>
              && (Intent(c.m) == Release ==> c.m.brakeEngaged && OkStreak(c.h) >= SessionStreak(c.h))
              && (Intent(c.m) == Apply ==> !c.m.brakeEngaged)
  {
    var s := Run(Initial(boot, dev), events);
    ReachableInv(boot, dev, events);
    if s.pc.Finishing? {
      JudgeInv(s.c, s.pc.reading, false);
      ReleaseIntentMeansFullStreak(FinishJudge(s.c, s.pc.reading, s.pc.flags));
    } else if s.pc.Idle? {
      ReleaseIntentMeansFullStreak(s.c);
    }
  }

  /** One NVML call at a time, and never two actuations: the flag is up exactly while one worker is out. */
  lemma OneCallAtATime(boot: BootInput, dev: Device, events: seq<Event>)
    ensures var c := Run(Initial(boot, dev), events).c;
            && c.readers + Live(c.brake) + Live(c.release) == (if c.busy then 1 else 0)
            && (c.brake.Empty? || c.release.Empty?)
            && (!c.brake.Empty? ==> !c.m.brakeEngaged)
            && (!c.release.Empty? ==> c.m.brakeEngaged)
  {
    ReachableInv(boot, dev, events);
  }

  /** How a read that holds the permit ends: it gives the permit back unless it timed out. */
  lemma OnlyTimeoutsKeepThePermit(boot: BootInput, dev: Device, events: seq<Event>, result: ReadResult)
    ensures var s := Run(Initial(boot, dev), events);
            var s' := Step(s, ReadEnds(result));
            Holds(s.pc) && !s.c.software ==>
              !Holds(s'.pc) && (s'.c.busy <==> result.ReadTimedOut?)
              && s'.c.readers == if result.ReadTimedOut? then 1 else 0
  {
    ReachableInv(boot, dev, events);
  }

  /** Neither the abandoned reader nor a crash. */
  predicate LeavesReader(e: Event) {
    !e.Crash? && e != Environment(LateReaderReturns)
  }

  /** A reader nobody waits for holds the permit, so no worker runs. */
  predicate Occupied(c: Core) {
    c.readers == 1 && c.busy && !c.brake.Running? && !c.release.Running?
  }

  lemma DispatchWhileOccupied(c: Core, due: bool)
    requires Occupied(c)
    ensures Occupied(DispatchDueOrPending(c, due))
  {
  }

  lemma CollectWhileOccupied(c: Core, reading: Reading, flags: Flags)
    requires Occupied(c)
    ensures Occupied(CollectBrake(c, reading).c) && !Holds(CollectBrake(c, reading).pc)
    ensures Occupied(CollectRelease(c, reading, flags).c) && !Holds(CollectRelease(c, reading, flags).pc)
  {
  }

  lemma FinishWhileOccupied(c: Core, reading: Reading, flags: Flags)
    requires Occupied(c)
    ensures Occupied(Finish(c, reading, flags))
  {
    DispatchWhileOccupied(FinishJudge(c, reading, flags), FinishDue(c, reading, flags));
  }

  lemma ProceedLeavesReader(s: State)
    requires !Holds(s.pc) && Occupied(s.c)
    ensures !Holds(Step(s, Proceed).pc) && Occupied(Step(s, Proceed).c)
  {
    match s.pc
    case Idle => DispatchWhileOccupied(s.c.(step := s.c.step + 1), false);
    case CollectingBrake(reading) => CollectWhileOccupied(s.c, reading, Flags(false, false, false));
    case CollectingRelease(reading, flags) => CollectWhileOccupied(s.c, reading, flags);
    case Finishing(reading, flags) => FinishWhileOccupied(s.c, reading, flags);
    case _ =>
  }

  lemma ShutdownLeavesReader(c: Core, input: JobInput, timedOut: bool)
    requires Occupied(c)
    ensures Occupied(Shutdown(c, input, timedOut))
  {
  }

  lemma StepLeavesReader(s: State, e: Event)
    requires !Holds(s.pc) && Occupied(s.c) && LeavesReader(e)
    ensures !Holds(Step(s, e).pc) && Occupied(Step(s, e).c)
  {
    match e
    case Proceed => ProceedLeavesReader(s);
    case ReadEnds(_) =>
    case Environment(_) =>
    case Signal(input, timedOut) => ShutdownLeavesReader(s.c, input, timedOut);
  }

  /**
   * A read that was given up keeps everybody out: until its driver call returns
   * or the process ends, no further read and no command gets the permit, whatever
   * else happens.
   */
  lemma AbandonedReadBlocks(s: State, events: seq<Event>)
    requires Inv(s) && !Holds(s.pc) && s.c.readers == 1
    requires forall k :: 0 <= k < |events| ==> LeavesReader(events[k])
    ensures !Holds(Run(s, events).pc) && Occupied(Run(s, events).c)
  {
    OccupiedRun(s, events);
  }

  lemma {:induction false} OccupiedRun(s: State, events: seq<Event>)
    requires !Holds(s.pc) && Occupied(s.c)
    requires forall k :: 0 <= k < |events| ==> LeavesReader(events[k])
    ensures !Holds(Run(s, events).pc) && Occupied(Run(s, events).c)
    decreases |events|
  {
    if events != [] {
      StepLeavesReader(s, events[0]);
      OccupiedRun(Step(s, events[0]), events[1..]);
    }
  }

  lemma {:induction false} DeviceTrail(s: State, events: seq<Event>)
    requires Inv(s)
    ensures var d, d' := s.c.dev, Run(s, events).c.dev;
            && d'.defaultW == d.defaultW
            && (Seen(d).ForeignSubDefaultCap? || Seen(d).Unreadable? ==> d' == d)
            && (d' == d || d'.currentW == d.defaultW || d'.currentW == d.defaultW / 2)
    decreases |events|
  {
    if events != [] {
      StepInv(s, events[0]);
      DeviceMoves(s, events[0]);
      DeviceTrail(Step(s, events[0]), events[1..]);
    }
  }

  /**
   * An operator's sub-default cap, or a device too small for an unambiguous
   * target, is never rewritten; any other register only ever holds its original
   * value, the brake target or the default.
   */
  lemma ForeignCapsSurviveEveryRun(boot: BootInput, dev: Device, events: seq<Event>)
    ensures var d := Run(Initial(boot, dev), events).c.dev;
            && (Seen(dev).ForeignSubDefaultCap? || Seen(dev).Unreadable? ==> d == dev)
            && (d == dev || d.currentW == dev.defaultW || d.currentW == dev.defaultW / 2)
  {
    StartedInv(boot, dev, Start);
    DeviceTrail(Initial(boot, dev), events);
  }
}
