/** The single-flight gate every NVML call goes through (src/nvml_gate.rs). */
module Gates {
  /** The shared flag; `live` counts the permits that have not been dropped. */
  class NvmlGate {
    var busy: bool
    ghost var live: nat

    constructor ()
      ensures Valid() && !busy
    {
      busy, live := false, 0;
    }

    ghost predicate Valid()
      reads this
    {
      live == if busy then 1 else 0
    }

    /** Compare-exchange of the flag: a permit exists afterwards in either case, a new one only if none did before. */
    method TryEnter() returns (entered: bool)
      requires Valid()
      modifies this
      ensures Valid() && busy
      ensures entered <==> !old(busy)
      ensures live == old(live) + if entered then 1 else 0
    {
      entered := !busy;
      if entered {
        busy := true;
        live := live + 1;
      }
    }

    method DropPermit()
      requires Valid() && live > 0
      modifies this
      ensures Valid() && !busy && live == old(live) - 1
    {
      busy := false;
      live := live - 1;
    }
  }

  // ---- every interleaving of callers ----------------------------------------

  /** `live` are the callers whose worker still holds a permit, `waiting` those still awaiting their worker. */
  datatype GateState = GateState(busy: bool, live: set<nat>, waiting: set<nat>)

  datatype GateEvent =
    | Enter(caller: nat)
    | WorkerReturns(caller: nat)
    | WaitTimesOut(caller: nat)
    | WaitCancelled(caller: nat)

  const OPEN := GateState(false, {}, {})

  function Step(g: GateState, e: GateEvent): GateState {
    match e
    case Enter(c) =>
      if g.busy || c in g.live then g else GateState(true, g.live + {c}, g.waiting + {c})
    case WorkerReturns(c) =>
      if c in g.live then GateState(false, g.live - {c}, g.waiting - {c}) else g
    case WaitTimesOut(c) => g.(waiting := g.waiting - {c})
    case WaitCancelled(c) => g.(waiting := g.waiting - {c})
  }

  function Run(g: GateState, events: seq<GateEvent>): GateState
    decreases |events|
  {
    if events == [] then g else Run(Step(g, events[0]), events[1..])
  }

  ghost predicate SingleFlight(g: GateState) {
    && (g.busy <==> g.live != {})
    && (forall a, b :: a in g.live && b in g.live ==> a == b)
    && g.waiting <= g.live
  }

  lemma {:induction false} SingleFlightPreserved(g: GateState, events: seq<GateEvent>)
    requires SingleFlight(g)
    ensures SingleFlight(Run(g, events))
    decreases |events|
  {
    if events != [] {
      SingleFlightPreserved(Step(g, events[0]), events[1..]);
    }
  }

  /** Nothing but the return of its own worker gives a permit back. */
  lemma {:induction false} PermitOutlivesWait(g: GateState, caller: nat, events: seq<GateEvent>)
    requires SingleFlight(g) && caller in g.live && WorkerReturns(caller) !in events
    ensures SingleFlight(Run(g, events)) && Run(g, events).live == {caller}
    decreases |events|
  {
    if events == [] {
      assert g.live == {caller};
    } else {
      assert events[0] in events;
      PermitOutlivesWait(Step(g, events[0]), caller, events[1..]);
    }
  }

  /**
   * A caller that was admitted keeps everyone out until its worker returns,
   * however long ago its wait timed out or was cancelled and whatever the other
   * callers did meanwhile.
   */
  lemma AbandonedWaitStillBlocks(events: seq<GateEvent>, caller: nat, meanwhile: seq<GateEvent>, other: nat)
    requires caller in Run(OPEN, events).live && WorkerReturns(caller) !in meanwhile
    ensures var g := Run(Run(OPEN, events), meanwhile);
            g.busy && g.live == {caller} && Step(g, Enter(other)) == g
  {
    SingleFlightPreserved(OPEN, events);
    PermitOutlivesWait(Run(OPEN, events), caller, meanwhile);
  }

  /**
   * After any interleaving: at most one permit is live and the flag says so; a
   * caller is admitted exactly when every worker admitted before has returned.
   */
  lemma AtMostOnePermit(events: seq<GateEvent>, caller: nat)
    ensures var g := Run(OPEN, events);
            && |g.live| <= 1
            && (g.busy <==> |g.live| == 1)
            && (caller !in g.live ==> (caller in Step(g, Enter(caller)).live <==> g.live == {}))
            && (caller in g.live ==> Step(g, WorkerReturns(caller)).live == {} && !Step(g, WorkerReturns(caller)).busy)
  {
    SingleFlightPreserved(OPEN, events);
    var g := Run(OPEN, events);
    if g.live != {} {
      var a :| a in g.live;
      assert g.live == {a};
    }
  }
}
