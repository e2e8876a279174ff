/**
 * What the end-to-end results about the register rest on: a device that
 * cooperates, workers that return, and what a finished task says about the limit.
 */
module SupervisorProgress {
  import opened PowerLimits
  import opened Supervisors
  import opened SupervisorSafety
  import opened SupervisorLoop

  // ---- a cooperating device ------------------------------------------------------------

  /** The limits can be read and the command does what it reports. */
  predicate Cooperates(input: JobInput) {
    input.readCurrent && input.readDefault && input.command.Completed? && !input.panics
  }

  predicate CooperatingEnv(events: seq<EnvEvent>) {
    forall k :: 0 <= k < |events| && events[k].WorkerReturns? ==> Cooperates(events[k].input)
  }

  predicate TaskComesBack(events: seq<EnvEvent>)
    decreases |events|
  {
    events != [] && (events[0].TaskFinishes? || TaskComesBack(events[1..]))
  }

  predicate WorkerComesBack(events: seq<EnvEvent>)
    decreases |events|
  {
    events != [] && ((events[0].WorkerReturns? && TaskComesBack(events[1..])) || WorkerComesBack(events[1..]))
  }

  predicate ReaderComesBack(events: seq<EnvEvent>)
    decreases |events|
  {
    events != [] && (events[0].LateReaderReturns? || ReaderComesBack(events[1..]))
  }

  /** Every worker that is out returns while the loop sleeps, and its task is seen to finish. */
  predicate AllReturn(events: seq<EnvEvent>) {
    WorkerComesBack(events) && ReaderComesBack(events)
  }

  predicate Responsive(i: TickInput) {
    && CooperatingEnv(i.beforeRead) && CooperatingEnv(i.duringRead)
    && CooperatingEnv(i.beforeBrake) && CooperatingEnv(i.duringBrake)
    && CooperatingEnv(i.beforeRelease) && CooperatingEnv(i.duringRelease)
    && CooperatingEnv(i.beforeDispatch) && CooperatingEnv(i.duringSleep)
    && AllReturn(i.duringSleep)
  }

  predicate Out(slot: Slot) {
    slot.Running? || slot.Returned?
  }

  predicate Came(slot: Slot) {
    slot.Returned? || slot.Finished?
  }

  predicate AtRest(c: Core) {
    !c.busy && c.readers == 0 && !Out(c.brake) && !Out(c.release)
  }

  lemma WorkersComeBackAsTasks(events: seq<EnvEvent>)
    ensures WorkerComesBack(events) ==> TaskComesBack(events)
    decreases |events|
  {
  }

  lemma {:induction false} SleepEndsAtRest(c: Core, events: seq<EnvEvent>)
    requires SupervisorSafety.SingleFlight(c, false)
    requires c.brake.Running? || c.release.Running? ==> WorkerComesBack(events)
    requires c.brake.Returned? || c.release.Returned? ==> TaskComesBack(events)
    requires c.readers > 0 ==> ReaderComesBack(events)
    ensures AtRest(EnvSteps(c, false, events))
    decreases |events|
  {
    if events != [] {
      WorkersComeBackAsTasks(events[1..]);
      SleepEndsAtRest(EnvStep(c, false, events[0]), events[1..]);
    }
  }

  /** Nobody is out, so nothing happens. */
  lemma {:induction false} RestIsQuiet(c: Core, events: seq<EnvEvent>)
    requires AtRest(c)
    ensures EnvSteps(c, false, events) == c
    decreases |events|
  {
    if events != [] {
      RestIsQuiet(c, events[1..]);
    }
  }

  lemma TickKeepsInv(c: Core, i: TickInput)
    requires Inv(State(Idle, c))
    ensures Inv(State(Idle, Tick(c, i)))
  {
    var events := TickIsARun(c, i);
    RunInv(State(Idle, c), events);
  }

  lemma AwakeIgnoresSleep(c: Core, i: TickInput)
    ensures Tick(c, i.(duringSleep := [])) == Awake(c, i)
  {
  }

  lemma SleepOf(c: Core, i: TickInput)
    requires Inv(State(Idle, c)) && AllReturn(i.duringSleep)
    ensures AtRest(Tick(c, i))
  {
    AwakeIgnoresSleep(c, i);
    TickKeepsInv(c, i.(duringSleep := []));
    WorkersComeBackAsTasks(i.duringSleep);
    SleepEndsAtRest(Awake(c, i), i.duringSleep);
  }

  // ---- what a finished task says about the register -----------------------------------

  predicate AtDefault(dev: Device) {
    dev.currentW == dev.defaultW && Seen(dev).AtOrAboveDefault?
  }

  /** A successful apply leaves the limit in the band, a successful release at the default. */
  ghost predicate SuccessShows(c: Core) {
    && (Came(c.brake) && c.brake.result.Success? ==> InBrakeBand(c.dev))
    && (Came(c.release) && c.release.result.Success? ==> AtDefault(c.dev))
  }

  lemma WorkerShows(c: Core, input: JobInput)
    requires (c.brake.Empty? || c.release.Empty?) && SuccessShows(c)
    ensures SuccessShows(WorkerStep(c, input))
  {
    BrakeTargetIsHalf(c.dev.defaultW);
  }

  lemma DispatchShows(c: Core, due: bool)
    requires SuccessShows(c)
    ensures SuccessShows(DispatchDueOrPending(c, due))
  {
  }

  lemma FinishShows(c: Core, reading: Reading, flags: Flags)
    requires SuccessShows(c)
    ensures SuccessShows(Finish(c, reading, flags))
  {
    DispatchShows(FinishJudge(c, reading, flags), FinishDue(c, reading, flags));
  }

  lemma ProceedShows(s: State)
    requires SuccessShows(s.c)
    ensures SuccessShows(Step(s, Proceed).c)
  {
    match s.pc
    case Idle => DispatchShows(s.c.(step := s.c.step + 1), false);
    case Finishing(reading, flags) => FinishShows(s.c, reading, flags);
    case _ =>
  }

  lemma ReadEndsShows(s: State, result: ReadResult)
    requires SuccessShows(s.c)
    ensures SuccessShows(Step(s, ReadEnds(result)).c)
  {
  }

  lemma ShutdownShows(c: Core, input: JobInput, timedOut: bool)
    requires (c.brake.Empty? || c.release.Empty?) && SuccessShows(c)
    ensures SuccessShows(Shutdown(c, input, timedOut))
  {
    WorkerShows(c, input);
  }

  lemma StepShows(s: State, e: Event)
    requires Inv(s) && SuccessShows(s.c)
    ensures SuccessShows(Step(s, e).c)
  {
    match e
    case Proceed => ProceedShows(s);
    case ReadEnds(result) => ReadEndsShows(s, result);
    case Environment(env) =>
      if env.WorkerReturns? {
        WorkerShows(s.c, env.input);
      }
    case Signal(input, timedOut) => ShutdownShows(s.c, input, timedOut);
    case Crash(_, _) =>
  }

  lemma {:induction false} RunShows(s: State, events: seq<Event>)
    requires Inv(s) && SuccessShows(s.c)
    ensures SuccessShows(Run(s, events).c)
    decreases |events|
  {
    if events != [] {
      StepInv(s, events[0]);
      StepShows(s, events[0]);
      RunShows(Step(s, events[0]), events[1..]);
    }
  }

  lemma ReachableShows(boot: BootInput, dev: Device, events: seq<Event>)
    ensures SuccessShows(Run(Initial(boot, dev), events).c)
  {
    StartedInv(boot, dev, Start);
    RunShows(Initial(boot, dev), events);
  }
}
