/**
 * One iteration of the loop as a function of its state and of everything the
 * environment decides meanwhile. An iteration is a run of the transition system,
 * so every theorem about runs is about iterations.
 */
module SupervisorLoop {
  import opened SafetyMachines
  import opened Supervisors
  import opened SupervisorResponse

  /** Everything the environment decides during one iteration. */
  datatype TickInput = TickInput(
    beforeRead: seq<EnvEvent>, duringRead: seq<EnvEvent>, read: ReadResult,
    beforeBrake: seq<EnvEvent>, duringBrake: seq<EnvEvent>, brakeRead: ReadResult,
    beforeRelease: seq<EnvEvent>, duringRelease: seq<EnvEvent>, releaseRead: ReadResult,
    beforeDispatch: seq<EnvEvent>, duringSleep: seq<EnvEvent>)

  function EnvSteps(c: Core, holds: bool, events: seq<EnvEvent>): Core
    decreases |events|
  {
    if events == [] then c else EnvSteps(EnvStep(c, holds, events[0]), holds, events[1..])
  }

  /** From the dispatch of a blocked Apply to the reading of the tick. */
  function AfterRead(c: Core, i: TickInput): State {
    var s := StartTick(EnvSteps(BeginDispatch(c), false, i.beforeRead));
    var waited := EnvSteps(s.c, s.pc.holds, i.duringRead);
    State(CollectingBrake(Acquired(waited, s.pc.holds, i.read)), EndRead(waited, s.pc.holds, i.read))
  }

  function AfterBrake(c: Core, reading: Reading, i: TickInput): State {
    BrakeReread(CollectBrake(EnvSteps(c, false, i.beforeBrake), reading), i)
  }

  function AfterRelease(c: Core, reading: Reading, flags: Flags, i: TickInput): State {
    ReleaseReread(CollectRelease(EnvSteps(c, false, i.beforeRelease), reading, flags), i)
  }

  function BrakeReread(s: State, i: TickInput): State {
    if s.pc.RereadingBrake? then
      State(CollectingRelease(s.pc.reading, Flags(true, false, true)),
            Reassess(EnvSteps(s.c, s.pc.holds, i.duringBrake), s.pc.holds, i.brakeRead))
    else s
  }

  function ReleaseReread(s: State, i: TickInput): State {
    if s.pc.RereadingRelease? then
      State(Finishing(s.pc.reading, s.pc.flags.(evaluated := true, due := true)),
            Reassess(EnvSteps(s.c, s.pc.holds, i.duringRelease), s.pc.holds, i.releaseRead))
    else s
  }

  /** From the collection of finished tasks to the dispatch. */
  function Dispatched(c: Core, reading: Reading, i: TickInput): Core {
    var s2 := AfterBrake(c, reading, i);
    var s3 := AfterRelease(s2.c, reading, s2.pc.flags, i);
    Finish(EnvSteps(s3.c, false, i.beforeDispatch), reading, s3.pc.flags)
  }

  /** One iteration up to its sleep. */
  function Awake(c: Core, i: TickInput): Core {
    var s := AfterRead(c, i);
    Dispatched(s.c, s.pc.reading, i)
  }

  function Tick(c: Core, i: TickInput): Core {
    EnvSteps(Awake(c, i), false, i.duringSleep)
  }

  // ---- an iteration is a run --------------------------------------------------------

  function AsEvents(events: seq<EnvEvent>): seq<Event>
    decreases |events|
  {
    if events == [] then [] else [Environment(events[0])] + AsEvents(events[1..])
  }

  lemma {:induction false} EnvStepsAreARun(s: State, events: seq<EnvEvent>)
    ensures Run(s, AsEvents(events)) == s.(c := EnvSteps(s.c, Holds(s.pc), events))
    decreases |events|
  {
    if events != [] {
      assert AsEvents(events)[1..] == AsEvents(events[1..]);
      EnvStepsAreARun(Step(s, Environment(events[0])), events[1..]);
    }
  }

  ghost predicate StaysUpThroughout(events: seq<Event>) {
    forall k :: 0 <= k < |events| ==> StaysUp(events[k])
  }

  lemma {:induction false} AsEventsStaysUp(events: seq<EnvEvent>)
    ensures StaysUpThroughout(AsEvents(events))
    decreases |events|
  {
    if events != [] {
      AsEventsStaysUp(events[1..]);
    }
  }

  /** Suspended while the workers go on, then resumed by `e`. */
  lemma SuspendedRun(s: State, during: seq<EnvEvent>, e: Event) returns (events: seq<Event>)
    requires StaysUp(e)
    ensures StaysUpThroughout(events)
    ensures Run(s, events) == Step(s.(c := EnvSteps(s.c, Holds(s.pc), during)), e)
  {
    EnvStepsAreARun(s, during);
    AsEventsStaysUp(during);
    events := AsEvents(during) + [e];
    RunAppend(s, AsEvents(during), [e]);
    RunOne(Run(s, AsEvents(during)), e);
  }

  lemma ThenRuns(s: State, a: seq<Event>, b: seq<Event>) returns (events: seq<Event>)
    requires StaysUpThroughout(a) && StaysUpThroughout(b)
    ensures StaysUpThroughout(events) && Run(s, events) == Run(Run(s, a), b)
  {
    events := a + b;
    RunAppend(s, a, b);
  }

  lemma ReadPhase(c: Core, i: TickInput) returns (events: seq<Event>)
    ensures StaysUpThroughout(events) && Run(State(Idle, c), events) == AfterRead(c, i)
  {
    var begun := State(Starting, BeginDispatch(c));
    RunOne(State(Idle, c), Proceed);
    events := SuspendedRun(begun, i.beforeRead, Proceed);
    var rest := SuspendedRun(StartTick(EnvSteps(begun.c, false, i.beforeRead)), i.duringRead, ReadEnds(i.read));
    events := ThenRuns(begun, events, rest);
    events := ThenRuns(State(Idle, c), [Proceed], events);
  }

  lemma BrakePhase(c: Core, reading: Reading, i: TickInput) returns (events: seq<Event>)
    ensures StaysUpThroughout(events)
    ensures Run(State(CollectingBrake(reading), c), events) == AfterBrake(c, reading, i)
  {
    var s := State(CollectingBrake(reading), c);
    events := SuspendedRun(s, i.beforeBrake, Proceed);
    var collected := CollectBrake(EnvSteps(c, false, i.beforeBrake), reading);
    if collected.pc.RereadingBrake? {
      var rest := SuspendedRun(collected, i.duringBrake, ReadEnds(i.brakeRead));
      events := ThenRuns(s, events, rest);
    }
  }

  lemma ReleasePhase(c: Core, reading: Reading, flags: Flags, i: TickInput) returns (events: seq<Event>)
    ensures StaysUpThroughout(events)
    ensures Run(State(CollectingRelease(reading, flags), c), events) == AfterRelease(c, reading, flags, i)
  {
    var s := State(CollectingRelease(reading, flags), c);
    events := SuspendedRun(s, i.beforeRelease, Proceed);
    var collected := CollectRelease(EnvSteps(c, false, i.beforeRelease), reading, flags);
    if collected.pc.RereadingRelease? {
      var rest := SuspendedRun(collected, i.duringRelease, ReadEnds(i.releaseRead));
      events := ThenRuns(s, events, rest);
    }
  }

  lemma FinishPhase(c: Core, reading: Reading, flags: Flags, i: TickInput) returns (events: seq<Event>)
    ensures StaysUpThroughout(events)
    ensures Run(State(Finishing(reading, flags), c), events)
         == State(Idle, EnvSteps(Finish(EnvSteps(c, false, i.beforeDispatch), reading, flags), false, i.duringSleep))
  {
    var s := State(Finishing(reading, flags), c);
    events := SuspendedRun(s, i.beforeDispatch, Proceed);
    EnvStepsAreARun(Run(s, events), i.duringSleep);
    AsEventsStaysUp(i.duringSleep);
    events := ThenRuns(s, events, AsEvents(i.duringSleep));
  }

  /** One iteration of the loop is a run without signal or crash from one idle point to the next. */
  lemma TickIsARun(c: Core, i: TickInput) returns (events: seq<Event>)
    ensures StaysUpThroughout(events)
    ensures Run(State(Idle, c), events) == State(Idle, Tick(c, i))
  {
    var s0 := State(Idle, c);
    var s1 := AfterRead(c, i);
    var reading := s1.pc.reading;
    var s2 := AfterBrake(s1.c, reading, i);
    var s3 := AfterRelease(s2.c, reading, s2.pc.flags, i);
    var a := ReadPhase(c, i);
    var b := BrakePhase(s1.c, reading, i);
    var d := ReleasePhase(s2.c, reading, s2.pc.flags, i);
    var e := FinishPhase(s3.c, reading, s3.pc.flags, i);
    ReadingIsKept(s1.c, reading, i);
    events := ThenRuns(s0, a, b);
    events := ThenRuns(s0, events, d);
    events := ThenRuns(s0, events, e);
  }

  lemma ReadingIsKept(c: Core, reading: Reading, i: TickInput)
    ensures var s := AfterBrake(c, reading, i);
            && s == State(CollectingRelease(reading, s.pc.flags), s.c)
            && var s' := AfterRelease(s.c, reading, s.pc.flags, i);
               s' == State(Finishing(reading, s'.pc.flags), s'.c)
  {
  }

  // ---- bounded response, counted in iterations --------------------------------------------

  function Ticks(c: Core, inputs: seq<TickInput>): Core
    decreases |inputs|
  {
    if inputs == [] then c else Ticks(Tick(c, inputs[0]), inputs[1..])
  }

  lemma {:induction false} EnvStepsKeepCount(c: Core, holds: bool, events: seq<EnvEvent>)
    ensures EnvSteps(c, holds, events).step == c.step
    decreases |events|
  {
    if events != [] {
      EnvStepsKeepCount(EnvStep(c, holds, events[0]), holds, events[1..]);
    }
  }

  lemma BrakeKeepsCount(c: Core, reading: Reading, i: TickInput)
    ensures AfterBrake(c, reading, i).c.step == c.step
  {
    EnvStepsKeepCount(c, false, i.beforeBrake);
    var s := CollectBrake(EnvSteps(c, false, i.beforeBrake), reading);
    EnvStepsKeepCount(s.c, Holds(s.pc), i.duringBrake);
  }

  lemma ReleaseKeepsCount(c: Core, reading: Reading, flags: Flags, i: TickInput)
    ensures AfterRelease(c, reading, flags, i).c.step == c.step
  {
    EnvStepsKeepCount(c, false, i.beforeRelease);
    var s := CollectRelease(EnvSteps(c, false, i.beforeRelease), reading, flags);
    EnvStepsKeepCount(s.c, Holds(s.pc), i.duringRelease);
  }

  lemma ReadCounts(c: Core, i: TickInput)
    ensures AfterRead(c, i).c.step == c.step + 1
  {
    EnvStepsKeepCount(BeginDispatch(c), false, i.beforeRead);
    var s := StartTick(EnvSteps(BeginDispatch(c), false, i.beforeRead));
    EnvStepsKeepCount(s.c, s.pc.holds, i.duringRead);
  }

  lemma TickCounts(c: Core, i: TickInput)
    ensures Tick(c, i).step == c.step + 1
  {
    ReadCounts(c, i);
    var s1 := AfterRead(c, i);
    BrakeKeepsCount(s1.c, s1.pc.reading, i);
    var s2 := AfterBrake(s1.c, s1.pc.reading, i);
    ReleaseKeepsCount(s2.c, s1.pc.reading, s2.pc.flags, i);
    var s3 := AfterRelease(s2.c, s1.pc.reading, s2.pc.flags, i);
    EnvStepsKeepCount(s3.c, false, i.beforeDispatch);
    FinishForgetsNothing(EnvSteps(s3.c, false, i.beforeDispatch), s1.pc.reading, s3.pc.flags);
    EnvStepsKeepCount(Awake(c, i), false, i.duringSleep);
  }

  lemma {:induction false} TicksAreARun(c: Core, inputs: seq<TickInput>) returns (events: seq<Event>)
    ensures StaysUpThroughout(events)
    ensures Run(State(Idle, c), events) == State(Idle, Ticks(c, inputs))
    ensures Ticks(c, inputs).step == c.step + |inputs|
    decreases |inputs|
  {
    events := [];
    if inputs != [] {
      TickCounts(c, inputs[0]);
      var first := TickIsARun(c, inputs[0]);
      var rest := TicksAreARun(Tick(c, inputs[0]), inputs[1..]);
      events := ThenRuns(State(Idle, c), first, rest);
    }
  }

  /**
   * Whatever frames, timeouts and workers the next iterations bring: with free
   * slots, after at most ten of them a dispatch has been attempted or nothing is
   * wanted.
   */
  lemma RetriedWithinTenTicks(c: Core, inputs: seq<TickInput>)
    requires c.brake.Empty? && c.release.Empty?
    requires |inputs| == Deadline(c) - c.step
    ensures 1 <= |inputs| <= 10
    ensures Attempts(Ticks(c, inputs).h) > Attempts(c.h) || Intent(Ticks(c, inputs).m) == NoIntent
  {
    var events := TicksAreARun(c, inputs);
    RetryWithinTenIterations(State(Idle, c), events);
  }
}
