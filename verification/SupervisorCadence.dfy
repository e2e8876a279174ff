/**
 * What one iteration adds to the history: which frames are judged, on which
 * iterations, and when a verdict leads to an attempt.
 */
module SupervisorCadence {
  import opened Prelude
  import opened Telemetry
  import opened PowerLimits
  import opened Assessments
  import opened SafetyMachines
  import opened Supervisors
  import opened SupervisorSafety
  import opened SupervisorResponse
  import opened SupervisorDispatch
  import opened SupervisorLoop

  // ---- the entries of one iteration -------------------------------------------------------

  /** A task that was not there, that failed, or that succeeded and was followed by a verdict. */
  datatype Collected = Nothing | Refused(error: ActuatorError) | Done(reading: Reading, engaged: bool)

  /** What an iteration adds to the history, in order. */
  datatype Added = Added(
    retried: Option<Entry>,
    brake: Collected,
    release: Collected,
    judged: Option<Entry>,
    attempted: Option<Entry>)
  {
    /** A completed command was collected, and a fresh frame judged for it. */
    predicate Reassessed() {
      brake.Done? || release.Done?
    }

    predicate Attempts(intent: BrakeIntent) {
      || (retried.Some? && retried.value.Attempt? && retried.value.intent == intent)
      || (attempted.Some? && attempted.value.Attempt? && attempted.value.intent == intent)
    }
  }

  function Plus(h: History, e: Option<Entry>): History {
    if e.Some? then Then(h, e.value) else h
  }

  function PlusBrake(h: History, task: Collected): History {
    match task
    case Nothing => h
    case Refused(error) => Then(h, Reported(ApplyFailed(error)))
    case Done(reading, engaged) => Then(Then(h, Reported(Applied)), Judged(reading, engaged))
  }

  function PlusRelease(h: History, task: Collected): History {
    match task
    case Nothing => h
    case Refused(error) => Then(h, Reported(ReleaseFailed(error)))
    case Done(reading, engaged) => Then(Then(h, Reported(Released)), Judged(reading, engaged))
  }

  function Extended(h: History, a: Added): History {
    Plus(Plus(PlusRelease(PlusBrake(Plus(h, a.retried), a.brake), a.release), a.judged), a.attempted)
  }

  /** The reading is the degraded one, or was made from what the read brought. */
  predicate ComesFrom(reading: Reading, result: ReadResult) {
    reading == UNAVAILABLE || reading == SIMULATED || (result.ReadValue? && reading.from == result.from)
  }

  /** The verdict that follows a completed command is on the frame read after it. */
  predicate FreshVerdict(task: Collected, result: ReadResult) {
    task.Done? ==> ComesFrom(task.reading, result)
  }

  predicate IsAttempt(e: Option<Entry>) {
    e.Some? ==> e.value.Attempt?
  }

  lemma {:induction false} EnvStepsKeepHistory(c: Core, holds: bool, events: seq<EnvEvent>)
    ensures EnvSteps(c, holds, events).h == c.h && EnvSteps(c, holds, events).m == c.m
    ensures EnvSteps(c, holds, events).pending == c.pending && EnvSteps(c, holds, events).policy == c.policy
    ensures SlotsEmpty(c) ==> SlotsEmpty(EnvSteps(c, holds, events))
    decreases |events|
  {
    if events != [] {
      EnvStepsKeepHistory(EnvStep(c, holds, events[0]), holds, events[1..]);
    }
  }

  lemma DispatchAdds(c: Core, due: bool) returns (e: Option<Entry>)
    ensures IsAttempt(e) && DispatchDueOrPending(c, due).h == Plus(c.h, e)
    ensures e.Some? ==> e.value.intent == Intent(c.m)
    ensures e.Some? <==> SlotsEmpty(c) && Intent(c.m) != NoIntent && (due || c.pending == Some(Intent(c.m)))
  {
    e := if SlotsEmpty(c) && Intent(c.m) != NoIntent && (due || c.pending == Some(Intent(c.m)))
         then Some(Attempt(Intent(c.m), !c.busy))
         else None;
  }

  lemma AcquiredComesFrom(c: Core, holds: bool, result: ReadResult)
    ensures ComesFrom(Acquired(c, holds, result), result)
  {
  }

  lemma BeginAdds(c: Core) returns (e: Option<Entry>)
    ensures var begun := BeginDispatch(c);
            && begun.h == Plus(c.h, e) && begun.m == c.m && IsAttempt(e)
            && (e.Some? ==> e.value.intent == Apply)
            && (e.Some? <==> SlotsEmpty(c) && c.pending == Some(Apply) && Intent(c.m) == Apply)
            && (e.None? && SlotsEmpty(c) ==> SlotsEmpty(begun) && begun.pending != Some(Apply))
            && (c.pending != Some(Release) ==> begun.pending != Some(Release))
  {
    e := None;
    if c.pending == Some(Apply) {
      e := DispatchAdds(c.(step := c.step + 1), false);
    }
  }

  lemma ReadPhaseAdds(c: Core, i: TickInput)
    ensures var s, begun := AfterRead(c, i), BeginDispatch(c);
            && s.c.h == begun.h && s.c.m == begun.m && s.c.step == c.step + 1 && s.c.pending == begun.pending
            && ComesFrom(s.pc.reading, i.read)
            && (SlotsEmpty(begun) ==> SlotsEmpty(s.c))
  {
    var begun := BeginDispatch(c);
    EnvStepsKeepHistory(begun, false, i.beforeRead);
    var s := StartTick(EnvSteps(begun, false, i.beforeRead));
    EnvStepsKeepHistory(s.c, s.pc.holds, i.duringRead);
    AcquiredComesFrom(EnvSteps(s.c, s.pc.holds, i.duringRead), s.pc.holds, i.read);
    ReadCounts(c, i);
  }

  lemma ReassessAdds(c: Core, during: seq<EnvEvent>, holds: bool, result: ReadResult)
    ensures var c' := Reassess(EnvSteps(c, holds, during), holds, result);
            && c'.h == Then(c.h, Judged(c'.h.last.reading, c'.h.last.engaged))
            && ComesFrom(c'.h.last.reading, result)
  {
    EnvStepsKeepHistory(c, holds, during);
    AcquiredComesFrom(EnvSteps(c, holds, during), holds, result);
  }

  lemma BrakePhaseAdds(c: Core, reading: Reading, i: TickInput) returns (task: Collected)
    ensures var s := AfterBrake(c, reading, i);
            && s.c.h == PlusBrake(c.h, task) && FreshVerdict(task, i.brakeRead)
            && s.pc == CollectingRelease(reading, Flags(task.Done?, task.Refused?, task.Done?))
  {
    EnvStepsKeepHistory(c, false, i.beforeBrake);
    var waited := EnvSteps(c, false, i.beforeBrake);
    var s := CollectBrake(waited, reading);
    task := Nothing;
    if waited.brake.Finished? {
      if waited.brake.result.Success? {
        ReassessAdds(s.c, i.duringBrake, s.pc.holds, i.brakeRead);
        var last := BrakeReread(s, i).c.h.last;
        task := Done(last.reading, last.engaged);
      } else {
        task := Refused(waited.brake.result.error);
      }
    }
  }

  lemma ReleasePhaseAdds(c: Core, reading: Reading, flags: Flags, i: TickInput) returns (task: Collected)
    ensures var s := AfterRelease(c, reading, flags, i);
            && s.c.h == PlusRelease(c.h, task) && FreshVerdict(task, i.releaseRead)
            && s.pc == Finishing(reading, Flags(flags.evaluated || task.Done?, flags.failed || task.Refused?,
                                                flags.due || task.Done?))
  {
    EnvStepsKeepHistory(c, false, i.beforeRelease);
    var waited := EnvSteps(c, false, i.beforeRelease);
    var s := CollectRelease(waited, reading, flags);
    task := Nothing;
    if waited.release.Finished? {
      if waited.release.result.Success? {
        ReassessAdds(s.c, i.duringRelease, s.pc.holds, i.releaseRead);
        var last := ReleaseReread(s, i).c.h.last;
        task := Done(last.reading, last.engaged);
      } else {
        task := Refused(waited.release.result.error);
      }
    }
  }

  /** The first iteration, every tenth, and any that finds the device gone. */
  predicate OnSchedule(step: nat, reading: Reading) {
    step == 1 || step % 10 == 0 || reading.from.raw.source.NvmlUnavailable?
  }

  /** Without a verdict for a collected task, the tick's own frame is judged when it is on schedule. */
  lemma FinishAdds(c: Core, reading: Reading, flags: Flags) returns (attempted: Option<Entry>)
    ensures var onSchedule := !flags.evaluated && OnSchedule(c.step, reading);
            var judged := if onSchedule then Some(Judged(reading, c.m.brakeEngaged)) else None;
            Finish(c, reading, flags).h == Plus(Plus(c.h, judged), attempted) && IsAttempt(attempted)
    ensures attempted.Some? ==> attempted.value.intent == Intent(FinishJudge(c, reading, flags).m)
    ensures attempted.Some? <==>
              var wanted := Intent(FinishJudge(c, reading, flags).m);
              && SlotsEmpty(c) && wanted != NoIntent
              && (FinishDue(c, reading, flags) || c.pending == Some(wanted))
  {
    attempted := DispatchAdds(FinishJudge(c, reading, flags), FinishDue(c, reading, flags));
  }

  // ---- one iteration ------------------------------------------------------------------------

  /** The tail of an iteration: collection, verdict, dispatch. */
  lemma DispatchedAdds(c: Core, reading: Reading, i: TickInput)
    returns (brake: Collected, release: Collected, judged: Option<Entry>, attempted: Option<Entry>)
    ensures Dispatched(c, reading, i).h
         == Plus(Plus(PlusRelease(PlusBrake(c.h, brake), release), judged), attempted)
    ensures FreshVerdict(brake, i.brakeRead) && FreshVerdict(release, i.releaseRead) && IsAttempt(attempted)
    ensures judged.Some? <==> !brake.Done? && !release.Done? && OnSchedule(c.step, reading)
    ensures judged.Some? ==> judged.value.Judged? && judged.value.reading == reading
  {
    brake := BrakePhaseAdds(c, reading, i);
    BrakeKeepsCount(c, reading, i);
    var s2 := AfterBrake(c, reading, i);
    release := ReleasePhaseAdds(s2.c, reading, s2.pc.flags, i);
    ReleaseKeepsCount(s2.c, reading, s2.pc.flags, i);
    var s3 := AfterRelease(s2.c, reading, s2.pc.flags, i);
    EnvStepsKeepHistory(s3.c, false, i.beforeDispatch);
    EnvStepsKeepCount(s3.c, false, i.beforeDispatch);
    var c3 := EnvSteps(s3.c, false, i.beforeDispatch);
    attempted := FinishAdds(c3, reading, s3.pc.flags);
    judged := if !s3.pc.flags.evaluated && OnSchedule(c3.step, reading) then Some(Judged(reading, c3.m.brakeEngaged))
              else None;
  }

  /**
   * What every iteration records, exactly and in order: a retry of a blocked
   * Apply that is still wanted; the outcomes of finished tasks, a success
   * followed by the verdict on a frame read after it; failing that, the verdict
   * on the tick's own frame, on the first iteration, on every tenth, and at once
   * when the device is unavailable; and at most one attempt.
   */
  lemma IterationAdds(c: Core, i: TickInput) returns (a: Added)
    ensures Tick(c, i).h == Extended(c.h, a)
    ensures IsAttempt(a.retried) && (a.retried.Some? ==> a.retried.value.intent == Apply)
    ensures a.retried.Some? <==> SlotsEmpty(c) && c.pending == Some(Apply) && Intent(c.m) == Apply
    ensures FreshVerdict(a.brake, i.brakeRead) && FreshVerdict(a.release, i.releaseRead)
    ensures var reading := AfterRead(c, i).pc.reading;
            && ComesFrom(reading, i.read)
            && (a.judged.Some? <==>
                  !a.Reassessed()
                  && (c.step + 1 == 1 || (c.step + 1) % 10 == 0 || reading.from.raw.source == NvmlUnavailable))
            && (a.judged.Some? ==> a.judged.value.Judged? && a.judged.value.reading == reading)
    ensures IsAttempt(a.attempted)
  {
    var retried := BeginAdds(c);
    ReadPhaseAdds(c, i);
    var s := AfterRead(c, i);
    var brake, release, judged, attempted := DispatchedAdds(s.c, s.pc.reading, i);
    EnvStepsKeepHistory(Awake(c, i), false, i.duringSleep);
    a := Added(retried, brake, release, judged, attempted);
  }

  /** With free slots there is nothing to collect. */
  lemma NothingToCollect(c: Core, reading: Reading, i: TickInput)
    requires SlotsEmpty(c)
    ensures var s := AfterBrake(c, reading, i);
            var s' := AfterRelease(s.c, reading, CLEAN_FLAGS, i);
            && s == State(CollectingRelease(reading, CLEAN_FLAGS), s.c)
            && s' == State(Finishing(reading, CLEAN_FLAGS), s'.c)
            && SlotsEmpty(s'.c) && s'.c.m == c.m && s'.c.h == c.h && s'.c.pending == c.pending && s'.c.step == c.step
  {
    EnvStepsKeepHistory(c, false, i.beforeBrake);
    var waited := EnvSteps(c, false, i.beforeBrake);
    EnvStepsKeepHistory(waited, false, i.beforeRelease);
    EnvStepsKeepCount(c, false, i.beforeBrake);
    EnvStepsKeepCount(waited, false, i.beforeRelease);
  }

  /** With free slots the tail of an iteration is its verdict and its dispatch. */
  lemma QuietUntilFinish(c: Core, reading: Reading, i: TickInput) returns (c3: Core)
    requires SlotsEmpty(c)
    ensures Dispatched(c, reading, i) == Finish(c3, reading, CLEAN_FLAGS)
    ensures c3.m == c.m && SlotsEmpty(c3) && c3.step == c.step && c3.h == c.h && c3.pending == c.pending
  {
    NothingToCollect(c, reading, i);
    var s3 := AfterRelease(AfterBrake(c, reading, i).c, reading, CLEAN_FLAGS, i);
    EnvStepsKeepHistory(s3.c, false, i.beforeDispatch);
    EnvStepsKeepCount(s3.c, false, i.beforeDispatch);
    c3 := EnvSteps(s3.c, false, i.beforeDispatch);
  }

  /** What the intent becomes when the tick's own frame is judged on schedule. */
  function IntentAfter(m: Machine, reading: Reading, step: nat): BrakeIntent {
    if OnSchedule(step, reading) then Intent(Evaluated(m, reading.kind).m) else Intent(m)
  }

  /** A verdict leads to an attempt when it changes what is wanted, or on the cadence. */
  predicate CallsForAttempt(m: Machine, reading: Reading, step: nat) {
    var wanted := IntentAfter(m, reading, step);
    && (step == 1 || step % 10 == 0 || reading.from.raw.source == NvmlUnavailable)
    && wanted != NoIntent && (wanted != Intent(m) || step == 1 || step % 10 == 0)
  }

  lemma FinishDecides(c: Core, reading: Reading)
    requires !c.m.justReleased
    ensures Intent(FinishJudge(c, reading, CLEAN_FLAGS).m) == IntentAfter(c.m, reading, c.step)
    ensures FinishDue(c, reading, CLEAN_FLAGS) <==> CallsForAttempt(c.m, reading, c.step)
  {
    DispatchedDecision(c, reading);
  }

  lemma QuietAttempts(c: Core, reading: Reading, i: TickInput) returns (judged: Option<Entry>, attempted: Option<Entry>)
    requires SlotsEmpty(c) && !c.m.justReleased && c.pending != Some(Apply) && c.pending != Some(Release)
    ensures Dispatched(c, reading, i).h == Plus(Plus(c.h, judged), attempted) && IsAttempt(attempted)
    ensures judged.Some? <==> OnSchedule(c.step, reading)
    ensures judged.Some? ==> judged.value.Judged? && judged.value.reading == reading
    ensures attempted.Some? <==> CallsForAttempt(c.m, reading, c.step)
    ensures attempted.Some? ==> attempted.value.intent == IntentAfter(c.m, reading, c.step)
  {
    var c3 := QuietUntilFinish(c, reading, i);
    FinishDecides(c3, reading);
    attempted := FinishAdds(c3, reading, CLEAN_FLAGS);
    judged := if OnSchedule(c3.step, reading) then Some(Judged(reading, c3.m.brakeEngaged)) else None;
  }

  /**
   * With free slots and nothing to retry, an iteration attempts a command exactly
   * when it has judged a frame, the verdict wants one, and the want is new or the
   * iteration is the first or a tenth.
   */
  lemma IterationAttempts(c: Core, i: TickInput) returns (a: Added)
    requires SlotsEmpty(c) && !c.m.justReleased && c.pending != Some(Release)
    requires !(c.pending == Some(Apply) && Intent(c.m) == Apply)
    ensures Tick(c, i).h == Extended(c.h, a)
    ensures a.retried.None? && a.brake.Nothing? && a.release.Nothing? && IsAttempt(a.attempted)
    ensures var reading, step := AfterRead(c, i).pc.reading, c.step + 1;
            && (a.judged.Some? <==> step == 1 || step % 10 == 0 || reading.from.raw.source == NvmlUnavailable)
            && (a.judged.Some? ==> a.judged.value.Judged? && a.judged.value.reading == reading)
            && (a.attempted.Some? <==> CallsForAttempt(c.m, reading, step))
            && (a.attempted.Some? ==> a.attempted.value.intent == IntentAfter(c.m, reading, step))
  {
    var retried := BeginAdds(c);
    ReadPhaseAdds(c, i);
    var s := AfterRead(c, i);
    var judged, attempted := QuietAttempts(s.c, s.pc.reading, i);
    EnvStepsKeepHistory(Awake(c, i), false, i.duringSleep);
    a := Added(None, Nothing, Nothing, judged, attempted);
  }

  /**
   * A frame that fails closed is acted on in its own iteration: with free slots
   * and no claim, an Apply is attempted exactly when one is waiting at the gate,
   * or the frame is judged and the Apply is a new want or the iteration is the
   * first or a tenth. A frame of an unavailable device is always judged.
   */
  lemma FailClosedFrameActs(c: Core, i: TickInput) returns (a: Added)
    requires SlotsEmpty(c) && !c.m.brakeEngaged && !c.m.justReleased && c.pending != Some(Release)
    requires FailClosed(AfterRead(c, i).pc.reading.kind)
    ensures Tick(c, i).h == Extended(c.h, a)
    ensures var reading, step := AfterRead(c, i).pc.reading, c.step + 1;
            && (a.judged.Some? <==>
                  !a.Reassessed() && (step == 1 || step % 10 == 0 || reading.from.raw.source == NvmlUnavailable))
            && (a.judged.Some? ==> a.judged.value.Judged? && a.judged.value.reading == reading)
    ensures var reading, step := AfterRead(c, i).pc.reading, c.step + 1;
            a.Attempts(Apply) <==>
              || (c.pending == Some(Apply) && Intent(c.m) == Apply)
              || ((step == 1 || step % 10 == 0 || reading.from.raw.source == NvmlUnavailable)
                  && (Intent(c.m) != Apply || step == 1 || step % 10 == 0))
  {
    if c.pending == Some(Apply) && Intent(c.m) == Apply {
      a := IterationAdds(c, i);
    } else {
      a := IterationAttempts(c, i);
      var reading := AfterRead(c, i).pc.reading;
      EvaluationIntents(c.m, reading.kind);
      FreshAndRecomputedDecisions(c.m, reading.kind);
    }
  }

  /** What every run brings to the points between iterations. */
  ghost predicate Between(c: Core) {
    && !c.m.justReleased && c.pending != Some(Release)
    && (c.step >= 1 && SlotsEmpty(c) && Intent(c.m) != NoIntent ==>
          c.pending == Some(Intent(c.m)) || FailedSinceAttempt(c.h))
  }

  lemma ReachesBetween(boot: BootInput, dev: Device, events: seq<Event>)
    ensures var s := Run(Initial(boot, dev), events); s.pc.Idle? ==> Between(s.c)
  {
    StartedInv(boot, dev, Start);
    RunJustReleased(Initial(boot, dev), events);
    ReleaseIsNeverBlocked(boot, dev, events);
    NoIntentIsLost(boot, dev, events);
  }

  /** An iteration that has judged its own frame, and acted on it unless an earlier attempt waits for its retry. */
  predicate JudgedAndActed(c: Core, reading: Reading, a: Added) {
    && (!a.Reassessed() ==> a.judged.Some? && a.judged.value.Judged? && a.judged.value.reading == reading)
    && (SlotsEmpty(c) && !c.m.brakeEngaged && !a.Attempts(Apply) ==>
          && Intent(c.m) == Apply && c.pending != Some(Apply) && (c.step + 1) % 10 != 0
          && FailedSinceAttempt(c.h))
  }

  lemma UnavailableFrom(c: Core, i: TickInput) returns (a: Added)
    requires Between(c)
    requires AfterRead(c, i).pc.reading.from.raw.source == NvmlUnavailable
    requires FailClosed(AfterRead(c, i).pc.reading.kind)
    ensures Tick(c, i).h == Extended(c.h, a) && JudgedAndActed(c, AfterRead(c, i).pc.reading, a)
  {
    if SlotsEmpty(c) && !c.m.brakeEngaged {
      a := FailClosedFrameActs(c, i);
    } else {
      a := IterationAdds(c, i);
    }
  }

  /**
   * In every run: when the read of an iteration finds the device unavailable and
   * no command completes in it, that reading is judged in that iteration. With
   * free slots and no claim an Apply is attempted there and then, unless one is
   * already wanted, does not wait at the gate, and the iteration is off the
   * cadence: then an earlier attempt has failed and waits for its retry.
   */
  lemma UnavailableDeviceIsJudgedAtOnce(boot: BootInput, dev: Device, events: seq<Event>, c: Core, i: TickInput)
    returns (a: Added)
    requires Run(Initial(boot, dev), events) == State(Idle, c)
    requires AfterRead(c, i).pc.reading.from.raw.source == NvmlUnavailable
    requires FailClosed(AfterRead(c, i).pc.reading.kind)
    ensures Tick(c, i).h == Extended(c.h, a) && JudgedAndActed(c, AfterRead(c, i).pc.reading, a)
  {
    ReachesBetween(boot, dev, events);
    a := UnavailableFrom(c, i);
  }

  // ---- every run ---------------------------------------------------------------------------------

  /** An intent waits at the gate only while nothing runs, and not in an iteration that has collected a failure. */
  ghost predicate PendingInv(s: State) {
    && (!SlotsEmpty(s.c) ==> s.c.pending.None?)
    && match s.pc
       case RereadingBrake(_, _) => s.c.pending.None?
       case CollectingRelease(_, flags) => flags.failed || flags.evaluated ==> s.c.pending.None?
       case RereadingRelease(_, _, _) => s.c.pending.None?
       case Finishing(_, flags) => flags.failed || flags.evaluated ==> s.c.pending.None?
       case _ => true
  }

  lemma DispatchPending(c: Core, due: bool)
    requires !SlotsEmpty(c) ==> c.pending.None?
    ensures var c' := DispatchDueOrPending(c, due); !SlotsEmpty(c') ==> c'.pending.None?
  {
  }

  lemma FinishPending(c: Core, reading: Reading, flags: Flags)
    requires !SlotsEmpty(c) ==> c.pending.None?
    ensures var c' := Finish(c, reading, flags); !SlotsEmpty(c') ==> c'.pending.None?
  {
    DispatchPending(FinishJudge(c, reading, flags), FinishDue(c, reading, flags));
  }

  lemma ProceedPending(s: State)
    requires PendingInv(s)
    ensures PendingInv(Step(s, Proceed))
  {
    match s.pc
    case Idle => DispatchPending(s.c.(step := s.c.step + 1), false);
    case Finishing(reading, flags) => FinishPending(s.c, reading, flags);
    case _ =>
  }

  lemma ShutdownPending(c: Core, input: JobInput, timedOut: bool)
    requires !SlotsEmpty(c) ==> c.pending.None?
    ensures var c' := Shutdown(c, input, timedOut); !SlotsEmpty(c') ==> c'.pending.None?
  {
  }

  lemma StepPending(s: State, e: Event)
    requires PendingInv(s)
    ensures PendingInv(Step(s, e))
  {
    match e
    case Proceed => ProceedPending(s);
    case ReadEnds(_) =>
    case Environment(_) =>
    case Signal(input, timedOut) => ShutdownPending(s.c, input, timedOut);
    case Crash(_, _) =>
  }

  lemma {:induction false} RunPending(s: State, events: seq<Event>)
    requires PendingInv(s)
    ensures PendingInv(Run(s, events))
    decreases |events|
  {
    if events != [] {
      StepPending(s, events[0]);
      RunPending(Step(s, events[0]), events[1..]);
    }
  }

  /**
   * No hammering: in every run, an iteration that has collected a failed command
   * and judged nothing since attempts a command only if its own frame changes
   * what is wanted.
   */
  lemma FailuresAreNotRetriedAtOnce(boot: BootInput, dev: Device, events: seq<Event>)
    ensures var s := Run(Initial(boot, dev), events);
            s.pc.Finishing? && s.pc.flags.failed && !s.pc.flags.evaluated ==>
              var s' := Step(s, Proceed);
              AttemptLog(s'.c.h) != AttemptLog(s.c.h) ==> Intent(s'.c.m) != Intent(s.c.m)
  {
    var s := Run(Initial(boot, dev), events);
    RunPending(Initial(boot, dev), events);
    StartedInv(boot, dev, Start);
    RunResponse(Initial(boot, dev), events);
    if s.pc.Finishing? && s.pc.flags.failed && !s.pc.flags.evaluated {
      FailedFinish(s.c, s.pc.reading, s.pc.flags);
    }
  }

  lemma FailedFinish(c: Core, reading: Reading, flags: Flags)
    requires flags.failed && !flags.evaluated && !flags.due && c.pending.None?
    ensures var c' := Finish(c, reading, flags);
            AttemptLog(c'.h) != AttemptLog(c.h) ==> Intent(c'.m) != Intent(c.m)
  {
    DispatchedDecision(c, reading);
  }
}
