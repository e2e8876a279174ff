/**
 * The publisher in front of the queue (src/publish.rs, `CorpusIpcPublisher`).
 * A call takes its number first and reaches the queue later; clones share the
 * sequence, so calls may overlap and overtake each other.
 */
module Publishers {
  import opened Prelude
  import opened Telemetry
  import opened Wire
  import opened SensoryQueues

  // ---- numbering ----------------------------------------------------------------------

  /** `sessionId` overrides the mapping's session and switches to the publisher's own sequence. */
  function Numbered(sessionId: Option<string>, seqNo: U64, m: SensoryMapping): StimulusBatch {
    if sessionId.Some? then BatchOf(m, sessionId, seqNo) else BatchOf(m, Some(m.sessionId), m.batchId)
  }

  /** `fetch_add` wraps. */
  function NextSeq(sessionId: Option<string>, seqNo: U64): U64 {
    if sessionId.Some? then (seqNo + 1) % (U64_MAX + 1) else seqNo
  }

  /** Whose session and number a batch carries. */
  lemma NumberedFor(sessionId: Option<string>, seqNo: U64, m: SensoryMapping)
    ensures var b := Numbered(sessionId, seqNo, m);
            if sessionId.Some? then b.sessionId == sessionId && b.batchId == seqNo
            else b.sessionId == Some(m.sessionId) && b.batchId == m.batchId
  {
  }

  // ---- every interleaving of calls ------------------------------------------------------

  /** A call that has its number but has not reached the queue. */
  datatype Call = Call(handle: nat, number: nat, batch: StimulusBatch)

  /** `numbered` holds every batch in the order the numbers were taken, `order` the positions in it of those offered. */
  datatype Publisher = Publisher(
    sessionId: Option<string>,
    sessionSeq: U64,
    numbered: seq<StimulusBatch>,
    calls: map<nat, Call>,
    order: seq<nat>,
    sys: System<StimulusBatch>)

  datatype PublishEvent =
    | Begin(call: nat, handle: nat, mapping: SensoryMapping)
    | Finish(call: nat, validates: bool, contended: bool)
    | Elsewhere(event: Event<StimulusBatch>)

  function Opened(capacity: nat, policy: QueueFullPolicy, sessionId: Option<string>): Publisher {
    Publisher(sessionId, 0, [], map[], [], Open(capacity, policy))
  }

  /** A handle cannot be dropped while a call borrows it. */
  predicate InUse(p: Publisher, handle: nat) {
    exists call :: call in p.calls && p.calls[call].handle == handle
  }

  function BeginCall(p: Publisher, call: nat, handle: nat, m: SensoryMapping): Publisher {
    if handle !in p.sys.handles || call in p.calls then p
    else
      var batch := Numbered(p.sessionId, p.sessionSeq, m);
      p.(sessionSeq := NextSeq(p.sessionId, p.sessionSeq),
         numbered := p.numbered + [batch],
         calls := p.calls[call := Call(handle, |p.numbered|, batch)])
  }

  /** A valid batch is offered, any other is recorded as a failed send. */
  function Delivery(handle: nat, batch: StimulusBatch, validates: bool, contended: bool): Event<StimulusBatch> {
    if validates then Offer(handle, batch, contended) else FailedSend(handle, contended)
  }

  function FinishCall(p: Publisher, call: nat, validates: bool, contended: bool): Publisher {
    if call !in p.calls then p
    else
      var Call(handle, number, batch) := p.calls[call];
      p.(calls := p.calls - {call},
         order := if validates then p.order + [number] else p.order,
         sys := SensoryQueues.Step(p.sys, Delivery(handle, batch, validates, contended)))
  }

  function Step(p: Publisher, e: PublishEvent): Publisher {
    match e
    case Begin(call, handle, mapping) => BeginCall(p, call, handle, mapping)
    case Finish(call, validates, contended) => FinishCall(p, call, validates, contended)
    case Elsewhere(event) =>
      if event.Offer? || event.FailedSend? || (event.Drop? && InUse(p, event.handle)) then p
      else p.(sys := SensoryQueues.Step(p.sys, event))
  }

  function Run(p: Publisher, events: seq<PublishEvent>): Publisher
    decreases |events|
  {
    if events == [] then p else Run(Step(p, events[0]), events[1..])
  }

  // ---- ids and numbers --------------------------------------------------------------------

  const BATCH_ID: StimulusBatch -> int := (b: StimulusBatch) => b.batchId

  ghost predicate Tied(p: Publisher) {
    && (forall call :: call in p.calls ==>
          && p.calls[call].number < |p.numbered|
          && p.calls[call].batch == p.numbered[p.calls[call].number]
          && p.calls[call].handle in p.sys.handles)
    && |p.order| == |p.sys.offered|
    && (forall i :: 0 <= i < |p.order| ==> p.order[i] < |p.numbered| && p.sys.offered[i] == p.numbered[p.order[i]])
    && Ordered(p.sys) && p.sys.q.capacity >= 1
  }

  lemma BeginTied(p: Publisher, call: nat, handle: nat, m: SensoryMapping)
    requires Tied(p)
    ensures Tied(BeginCall(p, call, handle, m))
  {
  }

  lemma FinishTied(p: Publisher, call: nat, validates: bool, contended: bool)
    requires Tied(p)
    ensures Tied(FinishCall(p, call, validates, contended))
  {
    if call in p.calls {
      var Call(handle, number, batch) := p.calls[call];
      StepKeepsOrder(p.sys, Delivery(handle, batch, validates, contended));
    }
  }

  lemma ElsewhereTied(p: Publisher, event: Event<StimulusBatch>)
    requires Tied(p)
    ensures Tied(Step(p, Elsewhere(event)))
  {
    StepKeepsOrder(p.sys, event);
  }

  lemma {:induction false} RunTied(p: Publisher, events: seq<PublishEvent>)
    requires Tied(p)
    ensures Tied(Run(p, events))
    decreases |events|
  {
    if events != [] {
      match events[0] {
        case Begin(call, handle, mapping) => BeginTied(p, call, handle, mapping);
        case Finish(call, validates, contended) => FinishTied(p, call, validates, contended);
        case Elsewhere(event) => ElsewhereTied(p, event);
      }
      RunTied(Step(p, events[0]), events[1..]);
    }
  }

  /** Under a session override the i-th number taken is i, up to the width of the counter. */
  ghost predicate SequenceNumbers(p: Publisher) {
    p.sessionId.Some? ==>
      && p.sessionSeq == |p.numbered| % (U64_MAX + 1)
      && forall i :: 0 <= i < |p.numbered| ==> p.numbered[i].batchId == i % (U64_MAX + 1)
  }

  lemma StepNumbers(p: Publisher, e: PublishEvent)
    requires SequenceNumbers(p)
    ensures SequenceNumbers(Step(p, e)) && Step(p, e).sessionId == p.sessionId
  {
  }

  lemma {:induction false} RunNumbers(p: Publisher, events: seq<PublishEvent>)
    requires SequenceNumbers(p)
    ensures SequenceNumbers(Run(p, events)) && Run(p, events).sessionId == p.sessionId
    decreases |events|
  {
    if events != [] {
      StepNumbers(p, events[0]);
      RunNumbers(Step(p, events[0]), events[1..]);
    }
  }

  ghost predicate InNumberingOrder(order: seq<nat>) {
    forall i, j :: 0 <= i < j < |order| ==> order[i] < order[j]
  }

  lemma OfferedFollowsNumbering(p: Publisher)
    requires Tied(p) && StrictlyIncreasing(p.numbered, BATCH_ID)
    ensures StrictlyIncreasing(p.sys.offered, BATCH_ID) <==> InNumberingOrder(p.order)
  {
    forall i, j | 0 <= i < j < |p.order|
      ensures BATCH_ID(p.sys.offered[i]) < BATCH_ID(p.sys.offered[j]) <==> p.order[i] < p.order[j]
    {
      if p.order[i] < p.order[j] {
        assert BATCH_ID(p.numbered[p.order[i]]) < BATCH_ID(p.numbered[p.order[j]]);
      } else if p.order[j] < p.order[i] {
        assert BATCH_ID(p.numbered[p.order[j]]) < BATCH_ID(p.numbered[p.order[i]]);
      }
    }
    if StrictlyIncreasing(p.sys.offered, BATCH_ID) {
      forall i, j | 0 <= i < j < |p.order| ensures p.order[i] < p.order[j] {
        assert BATCH_ID(p.sys.offered[i]) < BATCH_ID(p.sys.offered[j]);
      }
    }
  }

  lemma ReceivedFollowsOffered(p: Publisher)
    requires Tied(p) && StrictlyIncreasing(p.sys.offered, BATCH_ID)
    ensures StrictlyIncreasing(p.sys.received, BATCH_ID)
  {
    var s := p.sys;
    SubsequencePrefix(s.received + s.q.buf, s.offered, |s.received|);
    assert (s.received + s.q.buf)[..|s.received|] == s.received;
    SubsequenceOfIncreasing(s.received, s.offered, BATCH_ID);
  }

  // ---- the callers' part of a run -----------------------------------------------------------

  /** What the callers do in a run, without the consumer and the luck with the lock. */
  function Calls(events: seq<PublishEvent>): seq<PublishEvent>
    decreases |events|
  {
    if events == [] then []
    else match events[0]
      case Begin(_, _, _) => [events[0]] + Calls(events[1..])
      case Finish(call, validates, _) => [Finish(call, validates, false)] + Calls(events[1..])
      case Elsewhere(event) =>
        if event.Clone? || event.Drop? then [events[0]] + Calls(events[1..]) else Calls(events[1..])
  }

  /** Two states that differ at most in what the queue did with the offers. */
  ghost predicate Agree(p: Publisher, p': Publisher) {
    && p'.sessionId == p.sessionId && p'.sessionSeq == p.sessionSeq
    && p'.numbered == p.numbered && p'.calls == p.calls && p'.order == p.order
    && p'.sys.handles == p.sys.handles && p'.sys.offered == p.sys.offered
  }

  lemma {:induction false} CallersDecide(p: Publisher, p': Publisher, events: seq<PublishEvent>)
    requires Agree(p, p')
    ensures Agree(Run(p, events), Run(p', Calls(events)))
    decreases |events|
  {
    if events != [] {
      var e, calls := events[0], Calls(events);
      if e.Elsewhere? && !e.event.Clone? && !e.event.Drop? {
        CallersDecide(Step(p, e), p', events[1..]);
      } else {
        assert calls[1..] == Calls(events[1..]);
        CallersDecide(Step(p, e), Step(p', calls[0]), events[1..]);
      }
    }
  }

  lemma SameCallsSameOrder(p: Publisher, events: seq<PublishEvent>, others: seq<PublishEvent>)
    requires Calls(events) == Calls(others)
    ensures Agree(Run(p, events), Run(p, others))
  {
    CallersDecide(p, p, events);
    CallersDecide(p, p, others);
  }

  /** The same calls with the lock always free and every frame fetched at once. */
  function Prompt(events: seq<PublishEvent>): seq<PublishEvent>
    decreases |events|
  {
    if events == [] then []
    else match events[0]
      case Begin(_, _, _) => [events[0]] + Prompt(events[1..])
      case Finish(call, validates, _) => [Finish(call, validates, false), Elsewhere(Receive)] + Prompt(events[1..])
      case Elsewhere(event) =>
        if event.Clone? || event.Drop? then [events[0]] + Prompt(events[1..]) else Prompt(events[1..])
  }

  lemma {:induction false} PromptCalls(events: seq<PublishEvent>)
    ensures Calls(Prompt(events)) == Calls(events)
    decreases |events|
  {
    if events != [] {
      PromptCalls(events[1..]);
      var rest, all := Prompt(events[1..]), Prompt(events);
      if events[0].Finish? {
        assert all[1..] == [Elsewhere(Receive)] + rest;
        assert all[1..][1..] == rest;
      } else if events[0].Begin? || events[0].event.Clone? || events[0].event.Drop? {
        assert all[1..] == rest;
      }
    }
  }

  ghost predicate AllFetched(p: Publisher) {
    && p.sys.consumer && p.sys.q.connected && p.sys.q.capacity >= 1
    && p.sys.q.buf == [] && p.sys.received == p.sys.offered
  }

  lemma {:induction false} PromptFetchesAll(p: Publisher, events: seq<PublishEvent>)
    requires AllFetched(p)
    ensures AllFetched(Run(p, Prompt(events)))
    decreases |events|
  {
    if events != [] {
      var rest, all := Prompt(events[1..]), Prompt(events);
      if events[0].Finish? {
        assert all[1..] == [Elsewhere(Receive)] + rest;
        assert all[1..][1..] == rest;
        PromptFetchesAll(Step(Step(p, all[0]), all[1]), events[1..]);
      } else if events[0].Begin? || events[0].event.Clone? || events[0].event.Drop? {
        assert all[1..] == rest;
        PromptFetchesAll(Step(p, all[0]), events[1..]);
      } else {
        PromptFetchesAll(p, events[1..]);
      }
    }
  }

  // ---- when the worker sees increasing ids -----------------------------------------------------

  /** Ids grow in the order numbers are taken: a session's own sequence, or a feed stamped by one clock. */
  ghost predicate NumbersGrow(p: Publisher) {
    p.sessionId.None? ==> StrictlyIncreasing(p.numbered, BATCH_ID)
  }

  lemma SequenceGrows(p: Publisher)
    requires SequenceNumbers(p) && NumbersGrow(p) && |p.numbered| <= U64_MAX
    ensures StrictlyIncreasing(p.numbered, BATCH_ID)
  {
    if p.sessionId.Some? {
      forall i, j | 0 <= i < j < |p.numbered| ensures BATCH_ID(p.numbered[i]) < BATCH_ID(p.numbered[j]) {
        assert p.numbered[i].batchId == i && p.numbered[j].batchId == j;
      }
    }
  }

  lemma NumberedIncreasing(capacity: nat, policy: QueueFullPolicy, sessionId: Option<string>, events: seq<PublishEvent>)
    requires |Run(Opened(capacity, policy, sessionId), events).numbered| <= U64_MAX
    requires NumbersGrow(Run(Opened(capacity, policy, sessionId), events))
    ensures StrictlyIncreasing(Run(Opened(capacity, policy, sessionId), events).numbered, BATCH_ID)
  {
    RunNumbers(Opened(capacity, policy, sessionId), events);
    SequenceGrows(Run(Opened(capacity, policy, sessionId), events));
  }

  lemma OpenedTied(capacity: nat, policy: QueueFullPolicy, sessionId: Option<string>)
    requires ValidateCapacity(capacity).Success?
    ensures Tied(Opened(capacity, policy, sessionId)) && AllFetched(Opened(capacity, policy, sessionId))
  {
  }

  /** Offers made in numbering order reach the worker in id order, whatever is lost on the way. */
  lemma InOrderOffersArriveInOrder(capacity: nat, policy: QueueFullPolicy, sessionId: Option<string>,
                                   events: seq<PublishEvent>)
    requires ValidateCapacity(capacity).Success?
    requires |Run(Opened(capacity, policy, sessionId), events).numbered| <= U64_MAX
    requires NumbersGrow(Run(Opened(capacity, policy, sessionId), events))
    requires InNumberingOrder(Run(Opened(capacity, policy, sessionId), events).order)
    ensures StrictlyIncreasing(Run(Opened(capacity, policy, sessionId), events).sys.received, BATCH_ID)
  {
    var p := Run(Opened(capacity, policy, sessionId), events);
    OpenedTied(capacity, policy, sessionId);
    RunTied(Opened(capacity, policy, sessionId), events);
    NumberedIncreasing(capacity, policy, sessionId, events);
    OfferedFollowsNumbering(p);
    ReceivedFollowsOffered(p);
  }

  /**
   * The exact condition. Whatever the callers do, the worker sees strictly
   * increasing ids in every run with those calls, for all contention, receives
   * and losses, if and only if the calls offer their batches in the order in
   * which they took their numbers.
   */
  lemma IncreasingExactlyInNumberingOrder(capacity: nat, policy: QueueFullPolicy, sessionId: Option<string>,
                                          schedule: seq<PublishEvent>)
    requires ValidateCapacity(capacity).Success?
    requires |Run(Opened(capacity, policy, sessionId), schedule).numbered| <= U64_MAX
    requires NumbersGrow(Run(Opened(capacity, policy, sessionId), schedule))
    ensures var p := Opened(capacity, policy, sessionId);
            (forall events :: Calls(events) == Calls(schedule) ==>
               StrictlyIncreasing(Run(p, events).sys.received, BATCH_ID))
            <==> InNumberingOrder(Run(p, schedule).order)
  {
    var p := Opened(capacity, policy, sessionId);
    if InNumberingOrder(Run(p, schedule).order) {
      forall events | Calls(events) == Calls(schedule)
        ensures StrictlyIncreasing(Run(p, events).sys.received, BATCH_ID)
      {
        SameCallsSameOrder(p, events, schedule);
        InOrderOffersArriveInOrder(capacity, policy, sessionId, events);
      }
    } else {
      PromptRunShowsOvertaking(capacity, policy, sessionId, schedule);
      assert Calls(Prompt(schedule)) == Calls(schedule);
    }
  }

  /** Calls that overtake each other are seen out of order by a worker that keeps up. */
  lemma PromptRunShowsOvertaking(capacity: nat, policy: QueueFullPolicy, sessionId: Option<string>,
                                 schedule: seq<PublishEvent>)
    requires ValidateCapacity(capacity).Success?
    requires |Run(Opened(capacity, policy, sessionId), schedule).numbered| <= U64_MAX
    requires NumbersGrow(Run(Opened(capacity, policy, sessionId), schedule))
    requires !InNumberingOrder(Run(Opened(capacity, policy, sessionId), schedule).order)
    ensures Calls(Prompt(schedule)) == Calls(schedule)
    ensures !StrictlyIncreasing(Run(Opened(capacity, policy, sessionId), Prompt(schedule)).sys.received, BATCH_ID)
  {
    var p := Opened(capacity, policy, sessionId);
    OpenedTied(capacity, policy, sessionId);
    PromptCalls(schedule);
    SameCallsSameOrder(p, Prompt(schedule), schedule);
    PromptFetchesAll(p, schedule);
    RunTied(p, Prompt(schedule));
    NumberedIncreasing(capacity, policy, sessionId, schedule);
    OfferedFollowsNumbering(Run(p, Prompt(schedule)));
  }

  /** No call starts while another is under way. */
  ghost predicate OneCallAtATime(p: Publisher, events: seq<PublishEvent>)
    decreases |events|
  {
    events == [] ||
    ((events[0].Begin? ==> p.calls == map[]) && OneCallAtATime(Step(p, events[0]), events[1..]))
  }

  /** Everything offered was numbered before the calls still under way, and there is at most one. */
  ghost predicate Serial(p: Publisher) {
    && InNumberingOrder(p.order)
    && (forall i :: 0 <= i < |p.order| ==> p.order[i] < |p.numbered|)
    && (forall call :: call in p.calls ==> p.calls[call].number < |p.numbered|)
    && (forall i, call :: 0 <= i < |p.order| && call in p.calls ==> p.order[i] < p.calls[call].number)
    && (forall a, b :: a in p.calls && b in p.calls ==> a == b)
  }

  lemma StepSerial(p: Publisher, e: PublishEvent)
    requires Serial(p) && (e.Begin? ==> p.calls == map[])
    ensures Serial(Step(p, e))
  {
  }

  lemma {:induction false} RunSerial(p: Publisher, events: seq<PublishEvent>)
    requires Serial(p) && OneCallAtATime(p, events)
    ensures Serial(Run(p, events))
    decreases |events|
  {
    if events != [] {
      StepSerial(p, events[0]);
      RunSerial(Step(p, events[0]), events[1..]);
    }
  }

  /**
   * A single producer: when calls do not overlap, the worker sees strictly
   * increasing batch ids, whatever validation, contention, overflow, cloning and
   * dropping of handles lose on the way.
   */
  lemma WorkerSeesIncreasingIds(capacity: nat, policy: QueueFullPolicy, sessionId: Option<string>,
                                events: seq<PublishEvent>)
    requires ValidateCapacity(capacity).Success?
    requires |Run(Opened(capacity, policy, sessionId), events).numbered| <= U64_MAX
    requires NumbersGrow(Run(Opened(capacity, policy, sessionId), events))
    requires OneCallAtATime(Opened(capacity, policy, sessionId), events)
    ensures StrictlyIncreasing(Run(Opened(capacity, policy, sessionId), events).sys.received, BATCH_ID)
  {
    RunSerial(Opened(capacity, policy, sessionId), events);
    InOrderOffersArriveInOrder(capacity, policy, sessionId, events);
  }

  lemma {:induction false} RunAppend(p: Publisher, a: seq<PublishEvent>, b: seq<PublishEvent>)
    ensures Run(p, a + b) == Run(Run(p, a), b)
    decreases |a|
  {
    if a == [] {
      assert a + b == b;
    } else {
      assert (a + b)[1..] == a[1..] + b;
      RunAppend(Step(p, a[0]), a[1..], b);
    }
  }

  lemma RunTwo(p: Publisher, a: PublishEvent, b: PublishEvent)
    ensures Run(p, [a, b]) == Step(Step(p, a), b)
  {
    assert [a, b][1..] == [b] && [b][1..] == [];
    assert Run(Step(p, a), [b]) == Run(Step(Step(p, a), b), []);
  }

  /** Two clones: the first takes number 0, the second takes 1 and is offered first. */
  function Overtaking(m: SensoryMapping): seq<PublishEvent> {
    [Elsewhere(Clone(0, 1))] + [Begin(0, 0, m), Begin(1, 1, m)]
      + ([Finish(1, true, false), Elsewhere(Receive)] + [Finish(0, true, false), Elsewhere(Receive)])
  }

  lemma NumbersTaken(capacity: nat, policy: QueueFullPolicy, session: string, m: SensoryMapping) returns (p: Publisher)
    requires ValidateCapacity(capacity).Success?
    ensures p == Run(Opened(capacity, policy, Some(session)),
                     [Elsewhere(Clone(0, 1))] + [Begin(0, 0, m), Begin(1, 1, m)])
    ensures AllFetched(p) && p.sys.offered == [] && 0 in p.sys.handles && 1 in p.sys.handles
    ensures p.calls == map[0 := Call(0, 0, Numbered(Some(session), 0, m)),
                           1 := Call(1, 1, Numbered(Some(session), 1, m))]
  {
    var start := Opened(capacity, policy, Some(session));
    var cloned := Step(start, Elsewhere(Clone(0, 1)));
    p := Step(Step(cloned, Begin(0, 0, m)), Begin(1, 1, m));
    RunAppend(start, [Elsewhere(Clone(0, 1))], [Begin(0, 0, m), Begin(1, 1, m)]);
    RunTwo(cloned, Begin(0, 0, m), Begin(1, 1, m));
  }

  /** With the lock free, finishing a call and fetching hands its batch to the worker. */
  lemma FinishAndFetch(p: Publisher, call: nat)
    requires AllFetched(p) && call in p.calls && p.calls[call].handle in p.sys.handles
    ensures var p' := Run(p, [Finish(call, true, false), Elsewhere(Receive)]);
            && AllFetched(p') && p'.calls == p.calls - {call} && p'.sys.handles == p.sys.handles
            && p'.sys.received == p.sys.received + [p.calls[call].batch]
  {
    RunTwo(p, Finish(call, true, false), Elsewhere(Receive));
  }

  /** With a shared session sequence, cloned publishers can reach the worker out of order. */
  lemma ClonesCanOvertake(capacity: nat, policy: QueueFullPolicy, session: string, m: SensoryMapping)
    requires ValidateCapacity(capacity).Success?
    ensures var received := Run(Opened(capacity, policy, Some(session)), Overtaking(m)).sys.received;
            && |received| == 2 && received[0].batchId == 1 && received[1].batchId == 0
            && !StrictlyIncreasing(received, BATCH_ID)
  {
    var p := NumbersTaken(capacity, policy, session, m);
    var late := [Finish(0, true, false), Elsewhere(Receive)];
    var early := [Finish(1, true, false), Elsewhere(Receive)];
    RunAppend(Opened(capacity, policy, Some(session)),
              [Elsewhere(Clone(0, 1))] + [Begin(0, 0, m), Begin(1, 1, m)], early + late);
    RunAppend(p, early, late);
    FinishAndFetch(p, 1);
    FinishAndFetch(Run(p, early), 0);
    var received := Run(Run(p, early), late).sys.received;
    assert BATCH_ID(received[0]) == 1 && BATCH_ID(received[1]) == 0;
  }

  // ---- the mutable publisher ------------------------------------------------------------------

  /** The counter all clones of a publisher share. */
  class SharedSequence {
    var next: U64

    constructor ()
      ensures next == 0
    {
      next := 0;
    }

    method FetchAdd() returns (taken: U64)
      modifies this
      ensures taken == old(next) && next == (old(next) + 1) % (U64_MAX + 1)
    {
      taken := next;
      next := (next + 1) % (U64_MAX + 1);
    }
  }

  class CorpusIpcPublisher {
    const queue: SharedQueue<StimulusBatch>
    const sessionId: Option<string>
    const sessionSeq: SharedSequence

    constructor (queue: SharedQueue<StimulusBatch>, sessionId: Option<string>)
      ensures this.queue == queue && this.sessionId == sessionId && fresh(sessionSeq) && sessionSeq.next == 0
    {
      var s := new SharedSequence();
      this.queue, this.sessionId, sessionSeq := queue, sessionId, s;
    }

    /** A clone is one more handle on the queue and shares the sequence. */
    constructor CloneOf(other: CorpusIpcPublisher)
      requires other.queue.Valid()
      modifies other.queue
      ensures queue == other.queue && sessionId == other.sessionId && sessionSeq == other.sessionSeq
      ensures queue.Valid() && queue.View() == CloneHandle(old(other.queue.View()))
    {
      queue, sessionId, sessionSeq := other.queue, other.sessionId, other.sessionSeq;
      new;
      queue.AddHandle();
    }

    /** First half of a call: take the number, convert. */
    method TakeNumber(m: SensoryMapping) returns (batch: StimulusBatch)
      modifies sessionSeq
      ensures batch == Numbered(sessionId, old(sessionSeq.next), m)
      ensures sessionSeq.next == NextSeq(sessionId, old(sessionSeq.next))
    {
      var session, batchId := Some(m.sessionId), m.batchId;
      if sessionId.Some? {
        session := sessionId;
        batchId := sessionSeq.FetchAdd();
      }
      batch := MappingToStimulusBatch(m, session, batchId);
    }

    /** Second half: validate, enqueue; `validates` is the verdict of the batch validation. */
    method Send(batch: StimulusBatch, validates: bool, attempts: nat -> LockAttempt)
      returns (result: Result<(), PublishError>)
      requires queue.Valid()
      modifies queue, queue.droppedByReason, queue.droppedLockFree
      ensures queue.Valid()
      ensures validates ==> Offered(queue.View(), result) == Enqueue(old(queue.View()), batch, SpinOutcome(attempts, 0))
      ensures !validates ==>
                queue.View() == PublishLoss(old(queue.View()), SendFailure, SpinOutcome(attempts, 0))
                && result == Failure(SendFailed)
    {
      if !validates {
        queue.RecordPublishLoss(SendFailure, attempts);
        return Failure(SendFailed);
      }
      result := queue.TryEnqueue(batch, attempts);
    }

    /** A call nobody interrupts; other clones may run between the halves. */
    method TryPublish(m: SensoryMapping, validates: bool, attempts: nat -> LockAttempt)
      returns (result: Result<(), PublishError>)
      requires queue.Valid()
      modifies sessionSeq, queue, queue.droppedByReason, queue.droppedLockFree
      ensures queue.Valid()
      ensures sessionSeq.next == NextSeq(sessionId, old(sessionSeq.next))
      ensures validates ==>
                Offered(queue.View(), result)
                  == Enqueue(old(queue.View()), Numbered(sessionId, old(sessionSeq.next), m), SpinOutcome(attempts, 0))
      ensures !validates ==>
                queue.View() == PublishLoss(old(queue.View()), SendFailure, SpinOutcome(attempts, 0))
                && result == Failure(SendFailed)
    {
      var batch := TakeNumber(m);
      result := Send(batch, validates, attempts);
    }
  }
}
