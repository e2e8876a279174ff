/**
 * The bounded sensory queue between the supervisor and the publish worker
 * (src/publish.rs): the operations under the lock, the lock-free loss counters,
 * and every interleaving of producers, consumer and contention.
 */
module SensoryQueues {
  import opened Prelude

  datatype QueueFullPolicy = DropOldest | RejectNewest

  datatype DropReason = NewestRejected | OldestDropped | NoTransport | ConsumerGone | SendFailure | LockContended

  function Id(reason: DropReason): nat {
    match reason
    case NewestRejected => 0
    case OldestDropped => 1
    case NoTransport => 2
    case ConsumerGone => 3
    case SendFailure => 4
    case LockContended => 5
  }

  const REASONS: nat := 6

  datatype PublishError = Absent | Disconnected | SlowConsumer | SendFailed

  datatype QueueConfigError = CapacityTooSmall | CapacityTooLarge

  const MIN_CAPACITY: nat := 1
  const MAX_CAPACITY: nat := 4096

  function ValidateCapacity(capacity: nat): Result<nat, QueueConfigError> {
    if capacity < MIN_CAPACITY then Failure(CapacityTooSmall)
    else if capacity > MAX_CAPACITY then Failure(CapacityTooLarge)
    else Success(capacity)
  }

  type Tally = t: seq<U64> | |t| == REASONS witness [0, 0, 0, 0, 0, 0]

  const NO_DROPS: Tally := [0, 0, 0, 0, 0, 0]

  datatype Queue<T> = Queue(
    buf: seq<T>,
    capacity: nat,
    policy: QueueFullPolicy,
    connected: bool,
    producers: U64,
    enqueuedTotal: U64,
    dropped: Tally,
    droppedLockFree: Tally)

  function NewQueue<T>(capacity: nat, policy: QueueFullPolicy): Queue<T> {
    Queue([], capacity, policy, true, 1, 0, NO_DROPS, NO_DROPS)
  }

  // ---- operations --------------------------------------------------------------

  function CountDrops(t: Tally, reason: DropReason, n: U64): Tally {
    t[Id(reason) := SatAdd64(t[Id(reason)], n)]
  }

  /** `fetch_add` wraps. */
  function CountLockFree(t: Tally, reason: DropReason): Tally {
    t[Id(reason) := (t[Id(reason)] + 1) % (U64_MAX + 1)]
  }

  /** What a snapshot reports for one reason: both counters together. */
  function Dropped<T>(q: Queue<T>, reason: DropReason): nat {
    var locked: nat, lockFree: nat := q.dropped[Id(reason)], q.droppedLockFree[Id(reason)];
    locked + lockFree
  }

  datatype LockAttempt = Acquired | WouldBlock | PoisonSeen

  datatype LockResult = Locked | Contended | Poisoned

  const ENQUEUE_TRY_LOCK_SPINS: nat := 128

  datatype Offered<T> = Offered(q: Queue<T>, result: Result<(), PublishError>)

  function Enqueue<T>(q: Queue<T>, item: T, lock: LockResult): Offered<T> {
    match lock
    case Poisoned => Offered(q, Failure(Disconnected))
    case Contended =>
      Offered(q.(droppedLockFree := CountLockFree(q.droppedLockFree, LockContended)), Failure(SlowConsumer))
    case Locked =>
      if !q.connected then
        Offered(q.(dropped := CountDrops(q.dropped, ConsumerGone, 1)), Failure(Disconnected))
      else if |q.buf| < q.capacity then
        Offered(q.(buf := q.buf + [item], enqueuedTotal := SatAdd64(q.enqueuedTotal, 1)), Success(()))
      else match q.policy
        case RejectNewest => Offered(q.(dropped := CountDrops(q.dropped, NewestRejected, 1)), Failure(SlowConsumer))
        case DropOldest =>
          Offered(q.(buf := (if q.buf == [] then [] else q.buf[1..]) + [item],
                     dropped := CountDrops(q.dropped, OldestDropped, 1),
                     enqueuedTotal := SatAdd64(q.enqueuedTotal, 1)), Success(()))
  }

  function PublishLoss<T>(q: Queue<T>, reason: DropReason, lock: LockResult): Queue<T> {
    if lock.Locked? then q.(dropped := CountDrops(q.dropped, reason, 1))
    else q.(droppedLockFree := CountLockFree(q.droppedLockFree, reason))
  }

  function Pop<T>(q: Queue<T>): Queue<T> {
    if q.buf == [] then q else q.(buf := q.buf[1..])
  }

  function Front<T>(q: Queue<T>): Option<T> {
    if q.buf == [] then None else Some(q.buf[0])
  }

  datatype WorkerPoll<T> = Message(item: T) | Idle | Finished

  function Poll<T>(q: Queue<T>): WorkerPoll<T> {
    if q.buf != [] then Message(q.buf[0]) else if q.producers == 0 then Finished else Idle
  }

  function CloneHandle<T>(q: Queue<T>): Queue<T> {
    q.(producers := SatAdd64(q.producers, 1))
  }

  function DropHandle<T>(q: Queue<T>): Queue<T> {
    q.(producers := SatSub(q.producers, 1))
  }

  function DropConsumer<T>(q: Queue<T>): Queue<T> {
    q.(connected := false, buf := [], dropped := CountDrops(q.dropped, ConsumerGone, Min(|q.buf|, U64_MAX)))
  }

  // ---- what a caller is told --------------------------------------------------------

  /** The queue is full, connected, and makes room by forgetting. */
  predicate DropsOldest<T>(q: Queue<T>) {
    q.connected && |q.buf| >= q.capacity && q.policy.DropOldest?
  }

  /** The caller hears of a slow consumer exactly when its own frame was lost to contention or to reject-newest. */
  lemma SlowConsumerExactly<T>(q: Queue<T>, item: T, lock: LockResult)
    ensures Enqueue(q, item, lock).result == Failure(SlowConsumer) <==>
              lock.Contended? || (lock.Locked? && q.connected && |q.buf| >= q.capacity && q.policy.RejectNewest?)
  {
  }

  /** And of the rest: disconnected without a consumer or on a poisoned lock, success otherwise. */
  lemma AnswersExactly<T>(q: Queue<T>, item: T, lock: LockResult)
    ensures var o := Enqueue(q, item, lock);
            && (o.result == Failure(Disconnected) <==> lock.Poisoned? || (lock.Locked? && !q.connected))
            && (o.result == Success(()) <==>
                  lock.Locked? && q.connected && (|q.buf| < q.capacity || q.policy.DropOldest?))
            && (o.result.Failure? ==> o.q.buf == q.buf && o.q.enqueuedTotal == q.enqueuedTotal)
            && (o.result.Success? ==> o.q.buf != [] && o.q.buf[|o.q.buf| - 1] == item)
  {
  }

  /** The worker is given the oldest frame there is, told to wait while handles live, and to finish after the last. */
  lemma PollExactly<T>(q: Queue<T>)
    ensures (Poll(q).Finished? <==> q.buf == [] && q.producers == 0)
         && (Poll(q).Idle? <==> q.buf == [] && q.producers > 0)
         && (q.buf != [] ==> Poll(q) == Message(q.buf[0]) && Front(q) == Some(q.buf[0]) && Pop(q).buf == q.buf[1..])
         && (q.buf == [] ==> Front(q) == None && Pop(q) == q)
  {
  }

  lemma CapacityExactly(capacity: nat)
    ensures ValidateCapacity(capacity) ==
              if capacity == 0 then Failure(CapacityTooSmall)
              else if capacity > 4096 then Failure(CapacityTooLarge)
              else Success(capacity)
  {
  }

  /**
   * A full drop-oldest queue reports success although it has just lost a frame:
   * the documentation has it return `SlowConsumer`, the code does not.
   */
  lemma DropOldestReportsSuccess<T>(q: Queue<T>, item: T)
    requires DropsOldest(q) && q.capacity >= 1 && Dropped(q, OldestDropped) < U64_MAX
    ensures var offered := Enqueue(q, item, Locked);
            && offered.result == Success(())
            && offered.q.buf == q.buf[1..] + [item]
            && Dropped(offered.q, OldestDropped) == Dropped(q, OldestDropped) + 1
  {
  }

  // ---- every interleaving ----------------------------------------------------------

  /** The queue with what went in, what came out, the live producer handles, and whether the consumer is alive. */
  datatype System<T> = System(q: Queue<T>, offered: seq<T>, received: seq<T>, handles: set<nat>, consumer: bool)

  datatype Event<T> =
    | Offer(handle: nat, item: T, contended: bool)
    | FailedSend(handle: nat, contended: bool)
    | Receive
    | WorkerSendFailed
    | Clone(handle: nat, copy: nat)
    | Drop(handle: nat)
    | ConsumerDropped

  function Lock(contended: bool): LockResult {
    if contended then Contended else Locked
  }

  function Open<T>(capacity: nat, policy: QueueFullPolicy): System<T> {
    System(NewQueue(capacity, policy), [], [], {0}, true)
  }

  /** Only live handles produce, only a live consumer consumes. */
  function Step<T>(s: System<T>, e: Event<T>): System<T> {
    match e
    case Offer(handle, item, contended) =>
      if handle in s.handles then s.(q := Enqueue(s.q, item, Lock(contended)).q, offered := s.offered + [item]) else s
    case FailedSend(handle, contended) =>
      if handle in s.handles then s.(q := PublishLoss(s.q, SendFailure, Lock(contended))) else s
    case Receive =>
      if s.consumer && s.q.buf != [] then s.(q := Pop(s.q), received := s.received + [s.q.buf[0]]) else s
    case WorkerSendFailed =>
      if s.consumer then s.(q := PublishLoss(s.q, SendFailure, Locked)) else s
    case Clone(handle, copy) =>
      if handle in s.handles && copy !in s.handles then s.(q := CloneHandle(s.q), handles := s.handles + {copy}) else s
    case Drop(handle) =>
      if handle in s.handles then s.(q := DropHandle(s.q), handles := s.handles - {handle}) else s
    case ConsumerDropped =>
      if s.consumer then s.(q := DropConsumer(s.q), consumer := false) else s
  }

  function Run<T>(s: System<T>, events: seq<Event<T>>): System<T>
    decreases |events|
  {
    if events == [] then s else Run(Step(s, events[0]), events[1..])
  }

  // ---- conservation -------------------------------------------------------------------

  ghost predicate Conserved<T>(s: System<T>) {
    && |s.offered| == |s.received| + |s.q.buf| + Dropped(s.q, NewestRejected) + Dropped(s.q, OldestDropped)
                      + Dropped(s.q, ConsumerGone) + Dropped(s.q, LockContended)
    && s.q.droppedLockFree[0] == s.q.droppedLockFree[1] == s.q.droppedLockFree[3] == 0
    && s.q.dropped[5] == 0
  }

  ghost predicate Shaped<T>(s: System<T>) {
    && 1 <= s.q.capacity <= MAX_CAPACITY && |s.q.buf| <= s.q.capacity
    && s.q.producers == |s.handles|
    && s.q.connected == s.consumer
    && (!s.consumer ==> s.q.buf == [])
  }

  lemma OfferConserves<T>(s: System<T>, item: T, lock: LockResult)
    requires Shaped(s) && Conserved(s) && |s.offered| < U64_MAX && !lock.Poisoned?
    ensures Conserved(s.(q := Enqueue(s.q, item, lock).q, offered := s.offered + [item]))
    ensures |Enqueue(s.q, item, lock).q.buf| <= s.q.capacity
  {
  }

  lemma StepConserves<T>(s: System<T>, e: Event<T>)
    requires Shaped(s) && Conserved(s)
    requires |s.offered| < U64_MAX && |s.handles| < U64_MAX
    ensures Shaped(Step(s, e)) && Conserved(Step(s, e))
    ensures |Step(s, e).offered| <= |s.offered| + 1 && |Step(s, e).handles| <= |s.handles| + 1
  {
    if e.Offer? && e.handle in s.handles {
      OfferConserves(s, e.item, Lock(e.contended));
    }
  }

  lemma {:induction false} RunConserves<T>(s: System<T>, events: seq<Event<T>>)
    requires Shaped(s) && Conserved(s)
    requires |s.offered| + |events| <= U64_MAX && |s.handles| + |events| <= U64_MAX
    ensures Shaped(Run(s, events)) && Conserved(Run(s, events))
    ensures |Run(s, events).offered| <= |s.offered| + |events|
    decreases |events|
  {
    if events != [] {
      StepConserves(s, events[0]);
      RunConserves(Step(s, events[0]), events[1..]);
    }
  }

  lemma OpenIsShaped<T>(capacity: nat, policy: QueueFullPolicy)
    requires ValidateCapacity(capacity).Success?
    ensures Shaped(Open<T>(capacity, policy)) && Conserved(Open<T>(capacity, policy))
  {
  }

  /**
   * Every frame offered is accounted for, in any interleaving: received, still
   * buffered, or counted under exactly one reason. The buffer never exceeds its
   * capacity and `producers` is the number of live handles.
   */
  lemma EveryFrameIsAccountedFor<T>(capacity: nat, policy: QueueFullPolicy, events: seq<Event<T>>)
    requires ValidateCapacity(capacity).Success? && |events| < U64_MAX
    ensures var s := Run(Open<T>(capacity, policy), events);
            && |s.offered| == |s.received| + |s.q.buf| + Dropped(s.q, NewestRejected) + Dropped(s.q, OldestDropped)
                              + Dropped(s.q, ConsumerGone) + Dropped(s.q, LockContended)
            && |s.q.buf| <= s.q.capacity
            && s.q.producers == |s.handles|
  {
    OpenIsShaped<T>(capacity, policy);
    RunConserves(Open<T>(capacity, policy), events);
  }

  // ---- what callers learn of the losses ------------------------------------------------

  /** How offers were answered: told of a slow consumer, or told of success while an older frame was lost. */
  datatype Answers = Answers(slowConsumer: nat, hiddenLosses: nat)

  function Answer<T>(s: System<T>, e: Event<T>): Answers {
    if e.Offer? && e.handle in s.handles then
      var offered := Enqueue(s.q, e.item, Lock(e.contended));
      Answers(if offered.result == Failure(SlowConsumer) then 1 else 0,
              if offered.result.Success? && Dropped(offered.q, OldestDropped) != Dropped(s.q, OldestDropped)
              then 1 else 0)
    else Answers(0, 0)
  }

  function AllAnswers<T>(s: System<T>, events: seq<Event<T>>): Answers
    decreases |events|
  {
    if events == [] then Answers(0, 0)
    else
      var rest := AllAnswers(Step(s, events[0]), events[1..]);
      var first := Answer(s, events[0]);
      Answers(first.slowConsumer + rest.slowConsumer, first.hiddenLosses + rest.hiddenLosses)
  }

  lemma StepAnswers<T>(s: System<T>, e: Event<T>)
    requires Shaped(s) && Conserved(s) && |s.offered| < U64_MAX
    ensures var s', a := Step(s, e), Answer(s, e);
            && Dropped(s'.q, NewestRejected) + Dropped(s'.q, LockContended)
                 == Dropped(s.q, NewestRejected) + Dropped(s.q, LockContended) + a.slowConsumer
            && Dropped(s'.q, OldestDropped) == Dropped(s.q, OldestDropped) + a.hiddenLosses
  {
  }

  lemma HiddenLossExactly<T>(s: System<T>, e: Event<T>)
    requires Shaped(s) && Conserved(s) && |s.offered| < U64_MAX
    ensures Answer(s, e).hiddenLosses == 1 <==> e.Offer? && e.handle in s.handles && !e.contended && DropsOldest(s.q)
  {
  }

  lemma {:induction false} RunAnswers<T>(s: System<T>, events: seq<Event<T>>)
    requires Shaped(s) && Conserved(s)
    requires |s.offered| + |events| <= U64_MAX && |s.handles| + |events| <= U64_MAX
    ensures var s', a := Run(s, events), AllAnswers(s, events);
            && Dropped(s'.q, NewestRejected) + Dropped(s'.q, LockContended)
                 == Dropped(s.q, NewestRejected) + Dropped(s.q, LockContended) + a.slowConsumer
            && Dropped(s'.q, OldestDropped) == Dropped(s.q, OldestDropped) + a.hiddenLosses
    decreases |events|
  {
    if events != [] {
      StepConserves(s, events[0]);
      StepAnswers(s, events[0]);
      RunAnswers(Step(s, events[0]), events[1..]);
    }
  }

  /**
   * Over any interleaving, callers hear `SlowConsumer` once for every frame
   * rejected as newest or lost to contention, and of none of the frames that
   * drop-oldest forgot: a success hides a loss exactly when the queue it was
   * offered to was full under drop-oldest.
   */
  lemma DropOldestHidesItsLosses<T>(capacity: nat, policy: QueueFullPolicy, events: seq<Event<T>>, e: Event<T>)
    requires ValidateCapacity(capacity).Success? && |events| < U64_MAX
    ensures var s, a := Run(Open<T>(capacity, policy), events), AllAnswers(Open<T>(capacity, policy), events);
            && a.slowConsumer == Dropped(s.q, NewestRejected) + Dropped(s.q, LockContended)
            && a.hiddenLosses == Dropped(s.q, OldestDropped)
            && (Answer(s, e).hiddenLosses == 1 <==>
                  e.Offer? && e.handle in s.handles && !e.contended && DropsOldest(s.q))
  {
    OpenIsShaped<T>(capacity, policy);
    RunConserves(Open<T>(capacity, policy), events);
    RunAnswers(Open<T>(capacity, policy), events);
    HiddenLossExactly(Run(Open<T>(capacity, policy), events), e);
  }

  /** Offers that were accepted, and sends that failed before or after the queue. */
  datatype Traffic = Traffic(accepted: nat, failedSends: nat)

  function TrafficOf<T>(s: System<T>, e: Event<T>): Traffic {
    match e
    case Offer(handle, item, contended) =>
      Traffic(if handle in s.handles && Enqueue(s.q, item, Lock(contended)).result.Success? then 1 else 0, 0)
    case FailedSend(handle, _) => Traffic(0, if handle in s.handles then 1 else 0)
    case WorkerSendFailed => Traffic(0, if s.consumer then 1 else 0)
    case _ => Traffic(0, 0)
  }

  function AllTraffic<T>(s: System<T>, events: seq<Event<T>>): Traffic
    decreases |events|
  {
    if events == [] then Traffic(0, 0)
    else
      var first, rest := TrafficOf(s, events[0]), AllTraffic(Step(s, events[0]), events[1..]);
      Traffic(first.accepted + rest.accepted, first.failedSends + rest.failedSends)
  }

  lemma StepTraffic<T>(s: System<T>, e: Event<T>)
    requires s.q.enqueuedTotal < U64_MAX && Dropped(s.q, SendFailure) < U64_MAX
    ensures var s', a := Step(s, e), TrafficOf(s, e);
            && s'.q.enqueuedTotal == s.q.enqueuedTotal + a.accepted
            && Dropped(s'.q, SendFailure) == Dropped(s.q, SendFailure) + a.failedSends
            && a.accepted <= 1 && a.failedSends <= 1
  {
  }

  lemma {:induction false} RunTraffic<T>(s: System<T>, events: seq<Event<T>>)
    requires s.q.enqueuedTotal + |events| <= U64_MAX && Dropped(s.q, SendFailure) + |events| <= U64_MAX
    ensures var s', a := Run(s, events), AllTraffic(s, events);
            && s'.q.enqueuedTotal == s.q.enqueuedTotal + a.accepted
            && Dropped(s'.q, SendFailure) == Dropped(s.q, SendFailure) + a.failedSends
    decreases |events|
  {
    if events != [] {
      StepTraffic(s, events[0]);
      RunTraffic(Step(s, events[0]), events[1..]);
    }
  }

  /** The enqueue counter counts the offers answered with success, the send-failed counter the failed sends. */
  lemma CountersCount<T>(capacity: nat, policy: QueueFullPolicy, events: seq<Event<T>>)
    requires |events| <= U64_MAX
    ensures var s, a := Run(Open<T>(capacity, policy), events), AllTraffic(Open<T>(capacity, policy), events);
            s.q.enqueuedTotal == a.accepted && Dropped(s.q, SendFailure) == a.failedSends
  {
    RunTraffic(Open<T>(capacity, policy), events);
  }

  // ---- order ---------------------------------------------------------------------------

  ghost predicate Subsequence<T>(xs: seq<T>, ys: seq<T>)
    decreases |ys|
  {
    || xs == []
    || (ys != [] && Subsequence(xs, ys[..|ys| - 1]))
    || (ys != [] && xs[|xs| - 1] == ys[|ys| - 1] && Subsequence(xs[..|xs| - 1], ys[..|ys| - 1]))
  }

  lemma SubsequenceExtend<T>(xs: seq<T>, ys: seq<T>, x: T)
    requires Subsequence(xs, ys)
    ensures Subsequence(xs + [x], ys + [x]) && Subsequence(xs, ys + [x])
  {
    assert (ys + [x])[..|ys|] == ys;
    assert (xs + [x])[..|xs|] == xs;
  }

  /** Removing any element leaves a subsequence. */
  lemma {:induction false} SubsequenceRemove<T>(xs: seq<T>, ys: seq<T>, k: nat)
    requires Subsequence(xs, ys) && k < |xs|
    ensures Subsequence(xs[..k] + xs[k + 1..], ys)
    decreases |ys|
  {
    var init := ys[..|ys| - 1];
    if Subsequence(xs, init) {
      SubsequenceRemove(xs, init, k);
    } else if k == |xs| - 1 {
      assert xs[..k] + xs[k + 1..] == xs[..|xs| - 1];
    } else {
      SubsequenceRemove(xs[..|xs| - 1], init, k);
      var fewer := xs[..k] + xs[k + 1..];
      assert fewer[..|fewer| - 1] == xs[..|xs| - 1][..k] + xs[..|xs| - 1][k + 1..];
    }
  }

  lemma {:induction false} SubsequencePrefix<T>(xs: seq<T>, ys: seq<T>, n: nat)
    requires Subsequence(xs, ys) && n <= |xs|
    ensures Subsequence(xs[..n], ys)
    decreases |xs|
  {
    if n == |xs| {
      assert xs[..n] == xs;
    } else {
      SubsequenceRemove(xs, ys, |xs| - 1);
      assert xs[..|xs| - 1] + xs[|xs|..] == xs[..|xs| - 1];
      SubsequencePrefix(xs[..|xs| - 1], ys, n);
      assert xs[..|xs| - 1][..n] == xs[..n];
    }
  }

  ghost predicate Ordered<T>(s: System<T>) {
    Subsequence(s.received + s.q.buf, s.offered)
  }

  lemma OfferKeepsOrder<T>(s: System<T>, item: T, lock: LockResult)
    requires Ordered(s) && s.q.capacity >= 1
    ensures Ordered(s.(q := Enqueue(s.q, item, lock).q, offered := s.offered + [item]))
  {
    var all := s.received + s.q.buf;
    var q' := Enqueue(s.q, item, lock).q;
    SubsequenceExtend(all, s.offered, item);
    if q'.buf == s.q.buf {
    } else if |s.q.buf| < s.q.capacity {
      assert s.received + q'.buf == all + [item];
    } else {
      SubsequenceRemove(all, s.offered, |s.received|);
      var fewer := all[..|s.received|] + all[|s.received| + 1..];
      SubsequenceExtend(fewer, s.offered, item);
      assert s.received + q'.buf == fewer + [item];
    }
  }

  lemma StepKeepsOrder<T>(s: System<T>, e: Event<T>)
    requires Ordered(s) && s.q.capacity >= 1
    ensures Ordered(Step(s, e)) && Step(s, e).q.capacity == s.q.capacity
  {
    match e
    case Offer(handle, item, contended) =>
      if handle in s.handles {
        OfferKeepsOrder(s, item, Lock(contended));
      }
    case Receive =>
      if s.consumer && s.q.buf != [] {
        assert (s.received + [s.q.buf[0]]) + s.q.buf[1..] == s.received + s.q.buf;
      }
    case ConsumerDropped =>
      SubsequencePrefix(s.received + s.q.buf, s.offered, |s.received|);
      assert (s.received + s.q.buf)[..|s.received|] == s.received + [];
    case _ =>
  }

  lemma {:induction false} RunKeepsOrder<T>(s: System<T>, events: seq<Event<T>>)
    requires Ordered(s) && s.q.capacity >= 1
    ensures Ordered(Run(s, events))
    decreases |events|
  {
    if events != [] {
      StepKeepsOrder(s, events[0]);
      RunKeepsOrder(Step(s, events[0]), events[1..]);
    }
  }

  /** FIFO with losses: what was received followed by what is buffered is a subsequence of what was offered. */
  lemma DeliveredInOfferOrder<T>(capacity: nat, policy: QueueFullPolicy, events: seq<Event<T>>)
    requires ValidateCapacity(capacity).Success?
    ensures var s := Run(Open<T>(capacity, policy), events);
            Subsequence(s.received + s.q.buf, s.offered)
  {
    RunKeepsOrder(Open<T>(capacity, policy), events);
  }

  ghost predicate StrictlyIncreasing<T>(xs: seq<T>, key: T -> int) {
    forall i, j :: 0 <= i < j < |xs| ==> key(xs[i]) < key(xs[j])
  }

  /** A key that increases along a sequence increases along every subsequence, and ends no higher. */
  lemma {:induction false} SubsequenceOfIncreasing<T>(xs: seq<T>, ys: seq<T>, key: T -> int)
    requires Subsequence(xs, ys) && StrictlyIncreasing(ys, key)
    ensures StrictlyIncreasing(xs, key)
    ensures xs != [] ==> ys != [] && key(xs[|xs| - 1]) <= key(ys[|ys| - 1])
    decreases |ys|
  {
    if xs != [] {
      var init := ys[..|ys| - 1];
      if Subsequence(xs, init) {
        SubsequenceOfIncreasing(xs, init, key);
      } else {
        SubsequenceOfIncreasing(xs[..|xs| - 1], init, key);
        forall i, j | 0 <= i < j < |xs| ensures key(xs[i]) < key(xs[j]) {
          if j == |xs| - 1 {
            assert xs[i] == xs[..|xs| - 1][i];
            assert i < |xs| - 2 ==> key(xs[..|xs| - 1][i]) < key(xs[..|xs| - 1][|xs| - 2]);
          } else {
            assert key(xs[..|xs| - 1][i]) < key(xs[..|xs| - 1][j]);
          }
        }
      }
    }
  }

  /** A feed with strictly increasing keys is delivered with strictly increasing keys, whatever was lost on the way. */
  lemma DeliveredIncreasing<T>(capacity: nat, policy: QueueFullPolicy, events: seq<Event<T>>, key: T -> int)
    requires ValidateCapacity(capacity).Success?
    requires StrictlyIncreasing(Run(Open<T>(capacity, policy), events).offered, key)
    ensures StrictlyIncreasing(Run(Open<T>(capacity, policy), events).received, key)
  {
    var s := Run(Open<T>(capacity, policy), events);
    DeliveredInOfferOrder(capacity, policy, events);
    SubsequencePrefix(s.received + s.q.buf, s.offered, |s.received|);
    assert (s.received + s.q.buf)[..|s.received|] == s.received;
    SubsequenceOfIncreasing(s.received, s.offered, key);
  }

  function Latest<T>(items: seq<T>, n: nat): seq<T> {
    if |items| <= n then items else items[|items| - n..]
  }

  function Earliest<T>(items: seq<T>, n: nat): seq<T> {
    if |items| <= n then items else items[..n]
  }

  /** What the full policy promises to keep of everything offered so far. */
  function Kept<T>(q: Queue<T>, offered: seq<T>): seq<T> {
    if q.policy.DropOldest? then Latest(offered, q.capacity) else Earliest(offered, q.capacity)
  }

  lemma OfferWhilePaused<T>(q: Queue<T>, offered: seq<T>, item: T)
    requires q.connected && q.capacity >= 1 && q.buf == Kept(q, offered)
    ensures Enqueue(q, item, Locked).q.buf == Kept(q, offered + [item])
  {
  }

  /** The consumer takes nothing and every offer gets the lock. */
  predicate PausedEvent<T>(e: Event<T>) {
    !e.Receive? && !e.ConsumerDropped? && (e.Offer? ==> !e.contended)
  }

  ghost predicate Paused<T>(s: System<T>) {
    s.q.connected && s.q.capacity >= 1 && s.q.buf == Kept(s.q, s.offered)
  }

  lemma StepWhilePaused<T>(s: System<T>, e: Event<T>)
    requires Paused(s) && PausedEvent(e)
    ensures Paused(Step(s, e))
    ensures Step(s, e).q.policy == s.q.policy && Step(s, e).q.capacity == s.q.capacity
  {
    if e.Offer? {
      OfferWhilePaused(s.q, s.offered, e.item);
    }
  }

  lemma {:induction false} PausedRun<T>(s: System<T>, events: seq<Event<T>>)
    requires Paused(s) && forall i :: 0 <= i < |events| ==> PausedEvent(events[i])
    ensures Paused(Run(s, events))
    ensures Run(s, events).q.policy == s.q.policy && Run(s, events).q.capacity == s.q.capacity
    decreases |events|
  {
    if events != [] {
      StepWhilePaused(s, events[0]);
      PausedRun(Step(s, events[0]), events[1..]);
    }
  }

  /**
   * With the consumer paused and no contention, drop-oldest keeps exactly the
   * newest frames offered and reject-newest exactly the oldest, up to the
   * capacity, whatever producers come and go.
   */
  lemma PausedConsumerKeeps<T>(capacity: nat, policy: QueueFullPolicy, events: seq<Event<T>>)
    requires ValidateCapacity(capacity).Success?
    requires forall i :: 0 <= i < |events| ==> PausedEvent(events[i])
    ensures var s := Run(Open<T>(capacity, policy), events);
            s.q.buf == if policy.DropOldest? then Latest(s.offered, capacity) else Earliest(s.offered, capacity)
  {
    PausedRun(Open<T>(capacity, policy), events);
  }

  /** Nobody loses the race for the lock. */
  predicate Uncontended<T>(e: Event<T>) {
    e.Offer? ==> !e.contended
  }

  ghost predicate HoldsNewest<T>(s: System<T>) {
    && |s.q.buf| <= |s.offered|
    && s.q.buf == s.offered[|s.offered| - |s.q.buf|..]
  }

  lemma OfferHoldsNewest<T>(s: System<T>, item: T)
    requires HoldsNewest(s) && s.q.policy.DropOldest? && s.q.capacity >= 1 && s.q.connected
    ensures HoldsNewest(s.(q := Enqueue(s.q, item, Locked).q, offered := s.offered + [item]))
  {
  }

  lemma StepHoldsNewest<T>(s: System<T>, e: Event<T>)
    requires HoldsNewest(s) && s.q.policy.DropOldest? && s.q.capacity >= 1 && s.q.connected == s.consumer
    requires Uncontended(e) && (!s.consumer ==> s.q.buf == [])
    ensures HoldsNewest(Step(s, e))
    ensures Step(s, e).q.policy == s.q.policy && Step(s, e).q.capacity == s.q.capacity
    ensures Step(s, e).q.connected == Step(s, e).consumer && (!Step(s, e).consumer ==> Step(s, e).q.buf == [])
  {
    if e.Offer? && s.consumer {
      OfferHoldsNewest(s, e.item);
    }
  }

  lemma {:induction false} RunHoldsNewest<T>(s: System<T>, events: seq<Event<T>>)
    requires HoldsNewest(s) && s.q.policy.DropOldest? && s.q.capacity >= 1 && s.q.connected == s.consumer
    requires (!s.consumer ==> s.q.buf == []) && forall i :: 0 <= i < |events| ==> Uncontended(events[i])
    ensures HoldsNewest(Run(s, events))
    decreases |events|
  {
    if events != [] {
      StepHoldsNewest(s, events[0]);
      RunHoldsNewest(Step(s, events[0]), events[1..]);
    }
  }

  /**
   * However receives, handles and the consumer's end are interleaved: without
   * contention a drop-oldest buffer is always the unbroken tail of the frames
   * offered so far, so what the worker gets next is never older than necessary.
   */
  lemma BufferIsTheNewest<T>(capacity: nat, events: seq<Event<T>>)
    requires ValidateCapacity(capacity).Success? && forall i :: 0 <= i < |events| ==> Uncontended(events[i])
    ensures var s := Run(Open<T>(capacity, DropOldest), events);
            |s.q.buf| <= |s.offered| && s.q.buf == s.offered[|s.offered| - |s.q.buf|..]
  {
    RunHoldsNewest(Open<T>(capacity, DropOldest), events);
  }

  // ---- draining ---------------------------------------------------------------------------

  lemma {:induction false} NobodyLeft<T>(s: System<T>, events: seq<Event<T>>)
    requires s.handles == {} && s.q.buf == []
    ensures var s' := Run(s, events);
            s'.handles == {} && s'.q.buf == [] && s'.q.producers == s.q.producers
            && s'.offered == s.offered && s'.received == s.received
    decreases |events|
  {
    if events != [] {
      NobodyLeft(Step(s, events[0]), events[1..]);
    }
  }

  /**
   * The worker is told to finish exactly when nothing is buffered and no handle
   * is left; from then on nothing can be offered, and everything ever offered
   * was received or counted as dropped.
   */
  lemma FinishedMeansDrained<T>(capacity: nat, policy: QueueFullPolicy, events: seq<Event<T>>, more: seq<Event<T>>)
    requires ValidateCapacity(capacity).Success? && |events| < U64_MAX
    ensures var s := Run(Open<T>(capacity, policy), events);
            var later := Run(s, more);
            && (Poll(s.q).Finished? <==> s.q.buf == [] && s.handles == {})
            && (Poll(s.q).Finished? ==>
                  && later.offered == s.offered && later.received == s.received && Poll(later.q).Finished?
                  && |s.offered| == |s.received| + Dropped(s.q, NewestRejected) + Dropped(s.q, OldestDropped)
                                    + Dropped(s.q, ConsumerGone) + Dropped(s.q, LockContended))
  {
    var s := Run(Open<T>(capacity, policy), events);
    EveryFrameIsAccountedFor(capacity, policy, events);
    if Poll(s.q).Finished? {
      assert s.handles == {};
      NobodyLeft(s, more);
    }
  }

  // ---- the mutable queue --------------------------------------------------------------------

  /** The first decisive attempt from `spin` on, or contention when there is none within the limit. */
  function SpinOutcome(attempts: nat -> LockAttempt, spin: nat): LockResult
    decreases ENQUEUE_TRY_LOCK_SPINS - spin
  {
    if spin >= ENQUEUE_TRY_LOCK_SPINS then Contended
    else match attempts(spin)
      case Acquired => Locked
      case PoisonSeen => Poisoned
      case WouldBlock => SpinOutcome(attempts, spin + 1)
  }

  /** Contention is reported exactly when all 128 tries found the lock taken. */
  method TryLockWithSpin(attempts: nat -> LockAttempt) returns (lock: LockResult)
    ensures lock == SpinOutcome(attempts, 0)
    ensures lock.Contended? <==> forall k: nat :: k < 128 ==> attempts(k) == WouldBlock
    ensures !lock.Contended? ==>
              exists k: nat :: k < 128
                && (forall j: nat :: j < k ==> attempts(j) == WouldBlock)
                && attempts(k) == (if lock.Locked? then Acquired else PoisonSeen)
  {
    var spin := 0;
    while spin < ENQUEUE_TRY_LOCK_SPINS
      invariant spin <= ENQUEUE_TRY_LOCK_SPINS
      invariant forall j: nat :: j < spin ==> attempts(j) == WouldBlock
      invariant SpinOutcome(attempts, spin) == SpinOutcome(attempts, 0)
    {
      match attempts(spin) {
        case Acquired => return Locked;
        case PoisonSeen => return Poisoned;
        case WouldBlock =>
      }
      spin := spin + 1;
    }
    return Contended;
  }

  class SharedQueue<T> {
    const capacity: nat
    const policy: QueueFullPolicy
    var buf: seq<T>
    var connected: bool
    var producers: U64
    var enqueuedTotal: U64
    const droppedByReason: array<U64>
    const droppedLockFree: array<U64>

    ghost predicate Valid()
      reads this, droppedByReason, droppedLockFree
    {
      && droppedByReason.Length == REASONS && droppedLockFree.Length == REASONS
      && droppedByReason != droppedLockFree
      && MIN_CAPACITY <= capacity <= MAX_CAPACITY && |buf| <= capacity
    }

    ghost function View(): Queue<T>
      requires Valid()
      reads this, droppedByReason, droppedLockFree
    {
      Queue(buf, capacity, policy, connected, producers, enqueuedTotal, droppedByReason[..], droppedLockFree[..])
    }

    constructor (capacity: nat, policy: QueueFullPolicy)
      requires ValidateCapacity(capacity).Success?
      ensures Valid() && fresh(droppedByReason) && fresh(droppedLockFree)
      ensures View() == NewQueue(capacity, policy)
    {
      this.capacity, this.policy := capacity, policy;
      buf, connected, producers, enqueuedTotal := [], true, 1, 0;
      droppedByReason := new U64[REASONS](_ => 0);
      droppedLockFree := new U64[REASONS](_ => 0);
      new;
      assert droppedByReason[..] == NO_DROPS;
      assert droppedLockFree[..] == NO_DROPS;
    }

    method RecordDrop(reason: DropReason)
      requires Valid()
      modifies droppedByReason
      ensures Valid() && View() == old(View()).(dropped := CountDrops(old(View()).dropped, reason, 1))
    {
      droppedByReason[Id(reason)] := SatAdd64(droppedByReason[Id(reason)], 1);
    }

    method RecordLockFreeDrop(reason: DropReason)
      requires Valid()
      modifies droppedLockFree
      ensures Valid() && View() == old(View()).(droppedLockFree := CountLockFree(old(View()).droppedLockFree, reason))
    {
      droppedLockFree[Id(reason)] := (droppedLockFree[Id(reason)] + 1) % (U64_MAX + 1);
    }

    method TryEnqueue(item: T, attempts: nat -> LockAttempt) returns (result: Result<(), PublishError>)
      requires Valid()
      modifies this, droppedByReason, droppedLockFree
      ensures Valid() && Offered(View(), result) == Enqueue(old(View()), item, SpinOutcome(attempts, 0))
    {
      var lock := TryLockWithSpin(attempts);
      if lock.Poisoned? {
        return Failure(Disconnected);
      }
      if lock.Contended? {
        RecordLockFreeDrop(LockContended);
        return Failure(SlowConsumer);
      }
      if !connected {
        RecordDrop(ConsumerGone);
        return Failure(Disconnected);
      }
      if |buf| < capacity {
        buf := buf + [item];
        enqueuedTotal := SatAdd64(enqueuedTotal, 1);
        return Success(());
      }
      match policy {
        case RejectNewest =>
          RecordDrop(NewestRejected);
          result := Failure(SlowConsumer);
        case DropOldest =>
          buf := buf[1..];
          RecordDrop(OldestDropped);
          buf := buf + [item];
          enqueuedTotal := SatAdd64(enqueuedTotal, 1);
          result := Success(());
      }
    }

    method RecordPublishLoss(reason: DropReason, attempts: nat -> LockAttempt)
      requires Valid()
      modifies droppedByReason, droppedLockFree
      ensures Valid() && View() == PublishLoss(old(View()), reason, SpinOutcome(attempts, 0))
    {
      var lock := TryLockWithSpin(attempts);
      if lock.Locked? {
        RecordDrop(reason);
      } else {
        RecordLockFreeDrop(reason);
      }
    }

    method TryRecv() returns (item: Option<T>)
      requires Valid()
      modifies this
      ensures Valid() && View() == Pop(old(View())) && item == Front(old(View()))
    {
      if buf == [] {
        return None;
      }
      item := Some(buf[0]);
      buf := buf[1..];
    }

    method PollWorker() returns (poll: WorkerPoll<T>)
      requires Valid()
      modifies this
      ensures Valid() && View() == Pop(old(View())) && poll == Poll(old(View()))
    {
      if buf != [] {
        poll := Message(buf[0]);
        buf := buf[1..];
      } else if producers == 0 {
        poll := Finished;
      } else {
        poll := Idle;
      }
    }

    method AddHandle()
      requires Valid()
      modifies this
      ensures Valid() && View() == CloneHandle(old(View()))
    {
      producers := SatAdd64(producers, 1);
    }

    method RemoveHandle()
      requires Valid()
      modifies this
      ensures Valid() && View() == DropHandle(old(View()))
    {
      producers := SatSub(producers, 1);
    }

    method Disconnect()
      requires Valid()
      modifies this, droppedByReason
      ensures Valid() && View() == DropConsumer(old(View()))
    {
      connected := false;
      var leftover := |buf|;
      buf := [];
      if leftover > 0 {
        droppedByReason[Id(ConsumerGone)] := SatAdd64(droppedByReason[Id(ConsumerGone)], leftover);
      }
    }
  }
}
