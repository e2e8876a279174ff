/** Session-scoped sample clock and source-time provenance (src/time.rs). */
module Clock {
  import opened Prelude

  datatype SourceTimeStatus = InOrder | Duplicate | Backward | Future | Missing

  function ClassifySourceTime(source: Option<nat>, receivedAt: nat, lastSource: Option<nat>): SourceTimeStatus {
    match source
    case None => Missing
    case Some(src) =>
      if src > receivedAt then Future
      else match lastSource
        case Some(prev) => if src < prev then Backward else if src == prev then Duplicate else InOrder
        case None => InOrder
  }

  datatype FrameTiming = FrameTiming(
    sessionId: string,
    batchId: U64,
    sourceUnixMs: Option<nat>,
    receivedAtUnixMs: nat,
    sourceTimeStatus: SourceTimeStatus)

  datatype ClockState = ClockState(sessionId: string, nextBatchId: U64, lastSourceUnixMs: Option<nat>)

  function TimingAt(c: ClockState, source: Option<nat>, receivedAt: nat): FrameTiming {
    FrameTiming(c.sessionId, c.nextBatchId, source, receivedAt,
                ClassifySourceTime(source, receivedAt, c.lastSourceUnixMs))
  }

  function Ticked(c: ClockState, source: Option<nat>): ClockState
    requires c.nextBatchId < U64_MAX
  {
    ClockState(c.sessionId, c.nextBatchId + 1, if source.Some? then source else c.lastSourceUnixMs)
  }

  class SampleClock {
    const sessionId: string
    var nextBatchId: U64
    var lastSourceUnixMs: Option<nat>

    constructor WithSessionId(sessionId: string)
      ensures View() == ClockState(sessionId, 0, None)
    {
      this.sessionId := sessionId;
      nextBatchId := 0;
      lastSourceUnixMs := None;
    }

    function View(): ClockState
      reads this
    {
      ClockState(sessionId, nextBatchId, lastSourceUnixMs)
    }

    /** The source panics when the sequence would overflow; that is the precondition. */
    method Stamp(source: Option<nat>, receivedAt: nat) returns (timing: FrameTiming)
      requires nextBatchId < U64_MAX
      modifies this
      ensures timing == TimingAt(old(View()), source, receivedAt)
      ensures View() == Ticked(old(View()), source)
    {
      var status := ClassifySourceTime(source, receivedAt, lastSourceUnixMs);
      var batchId := nextBatchId;
      nextBatchId := nextBatchId + 1;
      if source.Some? {
        lastSourceUnixMs := source;
      }
      timing := FrameTiming(sessionId, batchId, source, receivedAt, status);
    }
  }

  datatype StampInput = StampInput(source: Option<nat>, receivedAt: nat)

  /** The timings one clock hands out for a sequence of acquisitions. */
  function Stamps(c: ClockState, inputs: seq<StampInput>): seq<FrameTiming>
    requires c.nextBatchId + |inputs| <= U64_MAX
    decreases |inputs|
  {
    if inputs == [] then []
    else [TimingAt(c, inputs[0].source, inputs[0].receivedAt)] + Stamps(Ticked(c, inputs[0].source), inputs[1..])
  }

  /** The last source time before the i-th acquisition, if any frame of the session carried one. */
  function LastSeen(inputs: seq<StampInput>, i: nat): Option<nat>
    requires i <= |inputs|
  {
    if i == 0 then None
    else if inputs[i - 1].source.Some? then inputs[i - 1].source
    else LastSeen(inputs, i - 1)
  }

  /** The provenance of every frame of a session, by its own source time, its receipt and the last source time seen. */
  predicate StatusFits(t: FrameTiming, input: StampInput, last: Option<nat>) {
    && t.sourceUnixMs == input.source && t.receivedAtUnixMs == input.receivedAt
    && (t.sourceTimeStatus == Missing <==> input.source.None?)
    && (t.sourceTimeStatus == Future <==> input.source.Some? && input.source.value > input.receivedAt)
    && (t.sourceTimeStatus == Backward <==>
          input.source.Some? && input.source.value <= input.receivedAt
          && last.Some? && input.source.value < last.value)
    && (t.sourceTimeStatus == Duplicate <==>
          input.source.Some? && input.source.value <= input.receivedAt && last == input.source)
  }

  lemma {:induction false} StampsFrom(c: ClockState, inputs: seq<StampInput>, i: nat)
    requires c.nextBatchId + |inputs| <= U64_MAX && i < |inputs|
    ensures |Stamps(c, inputs)| == |inputs|
    ensures var seen := LastSeen(inputs, i);
            StatusFits(Stamps(c, inputs)[i], inputs[i], if seen.Some? then seen else c.lastSourceUnixMs)
    decreases |inputs|
  {
    var rest := inputs[1..];
    if rest == [] {
    } else if i == 0 {
      StampsFrom(Ticked(c, inputs[0].source), rest, 0);
    } else {
      StampsFrom(Ticked(c, inputs[0].source), rest, i - 1);
      LastSeenShifts(inputs, i);
    }
  }

  lemma {:induction false} LastSeenShifts(inputs: seq<StampInput>, i: nat)
    requires 1 <= i <= |inputs|
    ensures var later := LastSeen(inputs[1..], i - 1);
            LastSeen(inputs, i) == if later.Some? then later else inputs[0].source
  {
    if i > 1 {
      LastSeenShifts(inputs, i - 1);
    }
  }

  /** From the start of a session, every frame's source-time status is what the frames before it say. */
  lemma StatusesFollowTheSession(sessionId: string, inputs: seq<StampInput>, i: nat)
    requires |inputs| <= U64_MAX && i < |inputs|
    ensures |Stamps(ClockState(sessionId, 0, None), inputs)| == |inputs|
    ensures StatusFits(Stamps(ClockState(sessionId, 0, None), inputs)[i], inputs[i], LastSeen(inputs, i))
  {
    StampsFrom(ClockState(sessionId, 0, None), inputs, i);
  }

  /**
   * Duplicate, backward, missing and future source times never disturb the
   * sequence: the i-th frame of a session always carries `first + i`.
   */
  lemma {:induction false} BatchIdsCountUp(c: ClockState, inputs: seq<StampInput>, i: nat)
    requires c.nextBatchId + |inputs| <= U64_MAX
    requires i < |inputs|
    ensures |Stamps(c, inputs)| == |inputs|
    ensures Stamps(c, inputs)[i].batchId == c.nextBatchId + i
    ensures Stamps(c, inputs)[i].sessionId == c.sessionId
    decreases |inputs|
  {
    if |inputs| > 1 {
      BatchIdsCountUp(Ticked(c, inputs[0].source), inputs[1..], if i == 0 then 0 else i - 1);
    } else {
      assert inputs[1..] == [];
    }
  }
}
