/** The blocking queue: the lock-free queue together with the LightweightSemaphore of
    lock_free/one_2_one/atomicops.h, again one access of shared memory per step. */
module SpscBlocking {
  import opened SpscQueue
  import opened SpscInvariant
  import opened SpscSteps
  import opened SpscConsumer
  import opened SpscRefinement
  import opened SpscSystem
  import opened SpscRuns
  import opened SpscCalls

  /** The producer is in or between calls of the inner queue, or in `signal`: about to add to
      m_count, or about to post the kernel semaphore. */
  datatype Signaller = SInner | SAdd | SPost

  /** The consumer is out of any wait; in tryWait (of `wait` if `blocking`), about to load m_count
      or to take one; in the spinning loop, likewise; about to take one regardless; blocked in the
      kernel semaphore; or inside the inner try_dequeue (pop) that the wait was for. */
  datatype Waiter =
    | WOut
    | WTry(blocking: bool)
    | WTryTake
    | WSpin(spin: nat)
    | WSpinTake
    | WTake
    | WBlocked
    | WInner

  datatype Blocking<T> = Blocking(q: State<T>, count: int, posts: nat, signaller: Signaller, waiter: Waiter)

  datatype Act<T> =
    | Enqueue(e: T, alloc: bool)
    | TryDequeue
    | WaitDequeue
    | Peek
    | Producing(memory: seq<T>)
    | Consuming

  datatype Result<T> = Result(b: Blocking<T>, ev: Event<T>)

  const SPINS: nat := 10000

  /** One step of the producer's thread: inside inner_enqueue, then signal(1) if it succeeded. */
  function ProducingStep<T>(b: Blocking<T>, memory: seq<T>): Result<T>
    requires b.q.Typed()
  {
    match b.signaller
    case SInner =>
      var o := Step(b.q, Produce(memory));
      Result(b.(q := o.s, signaller := if o.ev.Enqueued? then SAdd else SInner), o.ev)
    case SAdd =>
      Result(b.(count := b.count + 1, signaller := if b.count < 0 then SPost else SInner), Tau)
    case SPost => Result(b.(posts := b.posts + 1, signaller := SInner), Tau)
  }

  /** A token in hand, the consumer calls the inner try_dequeue. */
  function EnterInner<T>(b: Blocking<T>): Blocking<T> {
    b.(waiter := WInner, q := b.q.(c := CLoadFrontBlock(false)))
  }

  /** One step of the consumer's thread.  Blocked in the kernel it stays there until a post. */
  function ConsumingStep<T>(b: Blocking<T>): Result<T>
    requires b.q.Typed()
  {
    match b.waiter
    case WOut => var o := Step(b.q, Consume); Result(b.(q := o.s), o.ev)
    case WTry(blocking) =>
      if b.count > 0 then Result(b.(waiter := WTryTake), Tau)
      else if blocking then Result(b.(waiter := WSpin(SPINS)), Tau)
      else Result(b.(waiter := WOut), FoundEmpty)
    case WTryTake => Result(EnterInner(b.(count := b.count - 1)), Tau)
    case WSpin(spin) =>
      if spin == 0 then Result(b.(waiter := WTake), Tau)
      else if b.count > 0 then Result(b.(waiter := WSpinTake), Tau)
      else Result(b.(waiter := WSpin(spin - 1)), Tau)
    case WSpinTake => Result(EnterInner(b.(count := b.count - 1)), Tau)
    case WTake =>
      var taken := b.(count := b.count - 1);
      Result(if b.count <= 0 then taken.(waiter := WBlocked) else EnterInner(taken), Tau)
    case WBlocked =>
      Result(if b.posts > 0 then EnterInner(b.(posts := b.posts - 1)) else b, Tau)
    case WInner =>
      var o := Step(b.q, Consume);
      Result(b.(q := o.s, waiter := if o.s.c.CIdle? then WOut else WInner), o.ev)
  }

  predicate ProducerFree<T>(b: Blocking<T>) {
    b.signaller.SInner? && b.q.p.PIdle?
  }

  predicate ConsumerFree<T>(b: Blocking<T>) {
    b.waiter.WOut? && b.q.c.CIdle?
  }

  function BlockingStep<T>(b: Blocking<T>, a: Act<T>): Result<T>
    requires b.q.Typed()
  {
    match a
    case Enqueue(e, alloc) =>
      Result(if ProducerFree(b) then b.(q := Step(b.q, StartEnqueue(e, alloc)).s) else b, Tau)
    case TryDequeue => Result(if ConsumerFree(b) then b.(waiter := WTry(false)) else b, Tau)
    case WaitDequeue => Result(if ConsumerFree(b) then b.(waiter := WTry(true)) else b, Tau)
    case Peek => Result(if ConsumerFree(b) then b.(q := Step(b.q, StartPeek).s) else b, Tau)
    case Producing(memory) => ProducingStep(b, memory)
    case Consuming => ConsumingStep(b)
  }

  // ----- Invariant ----------------------------------------------------------------------------

  function One(x: bool): nat {
    if x then 1 else 0
  }

  /** Tokens taken for an element not yet dequeued. */
  function Held<T>(b: Blocking<T>): nat {
    One(b.waiter.WBlocked? || b.waiter.WInner?)
  }

  /** The semaphore counts the elements of the queue, but for an enqueue not yet signalled and a
      token already taken. */
  ghost predicate Tokens<T>(b: Blocking<T>)
    requires b.q.Typed()
  {
    && b.count == |b.q.m.Queue()| - One(b.signaller.SAdd?) - Held(b)
    && -1 <= b.count && (b.count == -1 ==> b.waiter.WBlocked?)
    && (b.waiter.WTryTake? || b.waiter.WSpinTake? ==> 0 < b.count)
    && b.posts + One(b.signaller.SPost?) == One(b.waiter.WBlocked? && 0 <= b.count)
  }

  predicate PeekCall<T>(c: Consumer<T>) {
    c.CIdle? || (!c.CAdvance? && !c.CPublish? && c.peek)
  }

  predicate DequeueCall<T>(c: Consumer<T>) {
    !c.CIdle? && (c.CAdvance? || c.CPublish? || !c.peek)
  }

  /** Where the inner queue's threads stand.  A dequeue that has found the front block empty will
      find the tail block elsewhere. */
  ghost predicate Inner<T>(b: Blocking<T>) {
    && (!b.signaller.SInner? ==> b.q.p.PIdle?)
    && (if b.waiter.WInner? then DequeueCall(b.q.c) else if b.waiter.WOut? then PeekCall(b.q.c) else b.q.c.CIdle?)
    && (b.waiter.WInner? && b.q.c.CLoadTailBlock? ==> b.q.m.frontBlock != b.q.m.tailBlock)
  }

  ghost predicate BlockingInv<T>(b: Blocking<T>) {
    b.q.Inv() && b.q.Typed() && Tokens(b) && Inner(b)
  }

  lemma QueueLength<T>(ev: Event<T>, q: seq<T>, q': seq<T>)
    requires QueueChange(ev, q, q')
    ensures |q'| == |q| + One(ev.Enqueued?) - One(ev.Dequeued?)
  {
  }

  lemma ProducerEvents<T>(m: Memory<T>, p: Producer<T>, memory: seq<T>)
    requires m.Typed() && ProducerTyped(m, p)
    ensures var o := ProducerStep(m, p, memory);
      !o.ev.Dequeued? && (o.ev.Enqueued? ==> o.p.PIdle? && !p.PIdle?)
  {
  }

  lemma ConsumerEvents<T>(m: Memory<T>, c: Consumer<T>)
    requires m.Typed() && ConsumerTyped(m, c)
    ensures var o := ConsumerStep(m, c);
      && !o.ev.Enqueued?
      && (PeekCall(c) ==> PeekCall(o.c) && !o.ev.Dequeued?)
      && (DequeueCall(c) ==>
        if o.ev == Tau then DequeueCall(o.c) else o.c.CIdle? && (o.ev.Dequeued? || o.ev.FoundEmpty?))
  {
  }

  lemma ProducingKeeps<T>(b: Blocking<T>, memory: seq<T>)
    requires BlockingInv(b)
    ensures BlockingInv(ProducingStep(b, memory).b)
  {
    if b.signaller.SInner? {
      var o := Step(b.q, Produce(memory));
      StepRefines(b.q, Produce(memory));
      TailStaysAway(b.q, Produce(memory));
      ProducerEvents(b.q.m, b.q.p, memory);
      QueueLength(o.ev, b.q.m.Queue(), o.s.m.Queue());
    }
  }

  /** Inside or outside a wait, a step of the inner queue's consumer. */
  lemma InnerStep<T>(b: Blocking<T>)
    requires BlockingInv(b) && ConsumerTyped(b.q.m, b.q.c)
    ensures var o := Step(b.q, Consume);
      && o.s.Inv() && o.s.Typed() && o.s.p == b.q.p
      && |o.s.m.Queue()| == |b.q.m.Queue()| - One(o.ev.Dequeued?)
      && (PeekCall(b.q.c) ==> PeekCall(o.s.c) && !o.ev.Dequeued?)
      && (DequeueCall(b.q.c) ==>
        if o.ev == Tau then DequeueCall(o.s.c) else o.s.c.CIdle? && (o.ev.Dequeued? || o.ev.FoundEmpty?))
      && (o.ev.FoundEmpty? ==> b.q.c.CLoadTailBlock? && b.q.m.frontBlock == b.q.m.tailBlock)
  {
    StepRefines(b.q, Consume);
    ReportsEmpty(b.q, Consume);
    ConsumerEvents(b.q.m, b.q.c);
    var o := Step(b.q, Consume);
    QueueLength(o.ev, b.q.m.Queue(), o.s.m.Queue());
  }

  lemma ConsumingOutKeeps<T>(b: Blocking<T>)
    requires BlockingInv(b) && b.waiter.WOut?
    ensures BlockingInv(ConsumingStep(b).b)
  {
    InnerStep(b);
  }

  /** A try_dequeue (pop) made with a token in hand succeeds: the asserts on `success` hold. */
  lemma ConsumingInnerKeeps<T>(b: Blocking<T>)
    requires BlockingInv(b) && b.waiter.WInner?
    ensures BlockingInv(ConsumingStep(b).b)
    ensures var r := ConsumingStep(b); r.ev == Tau || r.ev.Dequeued?
    ensures var r := ConsumingStep(b); r.ev.Dequeued? <==> r.b.waiter.WOut?
  {
    InnerStep(b);
    ReachesTailBlockLoad(b.q, Consume);
  }

  /** A token is taken for an element that is there: the count was positive, or a post said so. */
  lemma EnterKeeps<T>(b: Blocking<T>, taken: Blocking<T>)
    requires BlockingInv(b) && b.q.c.CIdle?
    requires taken == b.(count := taken.count, posts := taken.posts) && 0 <= taken.count && -1 < b.count
    requires b.count - taken.count == 1 - Held(b)
    requires taken.posts + One(b.signaller.SPost?) == 0
    ensures BlockingInv(EnterInner(taken)) && EnterInner(taken).q.m == b.q.m
  {
    StepRefines(b.q, StartDequeue);
  }

  predicate Enters<T>(b: Blocking<T>) {
    b.waiter.WTryTake? || b.waiter.WSpinTake? || (b.waiter.WTake? && 0 < b.count) || (b.waiter.WBlocked? && 0 < b.posts)
  }

  lemma ConsumingEnters<T>(b: Blocking<T>)
    requires BlockingInv(b) && Enters(b)
    ensures BlockingInv(ConsumingStep(b).b) && ConsumingStep(b).b.q.m == b.q.m && ConsumingStep(b).ev == Tau
  {
    EnterKeeps(b, if b.waiter.WBlocked? then b.(posts := b.posts - 1) else b.(count := b.count - 1));
  }

  lemma ConsumingWaits<T>(b: Blocking<T>)
    requires BlockingInv(b) && !b.waiter.WOut? && !b.waiter.WInner? && !Enters(b)
    ensures BlockingInv(ConsumingStep(b).b) && ConsumingStep(b).b.q == b.q
    ensures ConsumingStep(b).ev == Tau || ConsumingStep(b).ev == FoundEmpty
  {
    var b' := ConsumingStep(b).b;
    assert b' == b.(count := b'.count, waiter := b'.waiter);
  }

  /** Every step of either thread keeps the semaphore and the queue in agreement. */
  lemma BlockingKeeps<T>(b: Blocking<T>, a: Act<T>)
    requires BlockingInv(b)
    ensures BlockingInv(BlockingStep(b, a).b)
  {
    match a {
      case Producing(memory) => ProducingKeeps(b, memory);
      case Consuming =>
        if b.waiter.WOut? {
          ConsumingOutKeeps(b);
        } else if b.waiter.WInner? {
          ConsumingInnerKeeps(b);
        } else if Enters(b) {
          ConsumingEnters(b);
        } else {
          ConsumingWaits(b);
        }
      case Enqueue(e, alloc) => StepRefines(b.q, StartEnqueue(e, alloc));
      case Peek => StepRefines(b.q, StartPeek);
      case _ =>
    }
  }

  /** Every step does to the abstract queue what its event says. */
  lemma BlockingRefines<T>(b: Blocking<T>, a: Act<T>)
    requires BlockingInv(b)
    ensures BlockingStep(b, a).b.q.Typed()
    ensures QueueChange(BlockingStep(b, a).ev, b.q.m.Queue(), BlockingStep(b, a).b.q.m.Queue())
  {
    BlockingKeeps(b, a);
    match a {
      case Producing(memory) => StepRefines(b.q, Produce(memory));
      case Consuming =>
        StepRefines(b.q, Consume);
        if !b.waiter.WOut? && !b.waiter.WInner? {
          if Enters(b) {
            ConsumingEnters(b);
          } else {
            ConsumingWaits(b);
          }
        }
      case _ => assert BlockingStep(b, a).b.q.m == b.q.m;
    }
  }

  /** try_dequeue (or pop) reports an empty queue exactly if the semaphore has no token: the queue is empty, or its
      one element is that of an enqueue that has yet to signal.  Nothing else of a wait or of an enqueue does. */
  lemma EmptyIsReported<T>(b: Blocking<T>, a: Act<T>)
    requires BlockingInv(b) && !b.waiter.WOut?
    ensures BlockingStep(b, a).ev == FoundEmpty <==>
      a.Consuming? && b.waiter == WTry(false) && |b.q.m.Queue()| <= One(b.signaller.SAdd?)
  {
    match a {
      case Producing(memory) => ProducingReports(b, memory);
      case Consuming =>
        if b.waiter.WInner? {
          ConsumingInnerKeeps(b);
        } else if Enters(b) {
          ConsumingEnters(b);
        }
      case _ =>
    }
  }

  lemma ProducingReports<T>(b: Blocking<T>, memory: seq<T>)
    requires BlockingInv(b)
    ensures ProducingStep(b, memory).ev != FoundEmpty
  {
  }

  // ----- Runs ---------------------------------------------------------------------------------

  /** A run of the blocking queue from its construction. */
  datatype BlockingRun<T> = BlockingRun(states: seq<Blocking<T>>, schedule: seq<Act<T>>, evs: seq<Event<T>>) {
    ghost predicate Linked(j: nat)
      requires j < |schedule| == |evs| && |states| == |schedule| + 1
    {
      states[j].q.Typed() && BlockingStep(states[j], schedule[j]) == Result(states[j + 1], evs[j])
    }

    ghost predicate Valid(maxSize: nat, maxBlock: nat) {
      && |evs| == |schedule| && |states| == |schedule| + 1
      && Start(states[0].q, maxSize, maxBlock)
      && states[0] == Blocking(states[0].q, 0, 0, SInner, WOut)
      && forall j {:trigger Linked(j)} | 0 <= j < |schedule| :: Linked(j)
    }
  }

  lemma {:induction false} BlockingStateOf<T>(run: BlockingRun<T>, maxSize: nat, maxBlock: nat, j: nat)
    requires run.Valid(maxSize, maxBlock) && j <= |run.schedule|
    ensures BlockingInv(run.states[j])
  {
    if j == 0 {
      StartIsInvariant(run.states[0].q, maxSize, maxBlock);
    } else {
      BlockingStateOf(run, maxSize, maxBlock, j - 1);
      assert run.Linked(j - 1);
      BlockingKeeps(run.states[j - 1], run.schedule[j - 1]);
    }
  }

  /** The assert in `signal`: the count is never below -1, and at -1 only while the one consumer is
      blocked. */
  lemma CountIsBounded<T>(run: BlockingRun<T>, maxSize: nat, maxBlock: nat, j: nat)
    requires run.Valid(maxSize, maxBlock) && j <= |run.schedule|
    ensures var b := run.states[j]; -1 <= b.count && (b.count == -1 ==> b.waiter.WBlocked?)
  {
    BlockingStateOf(run, maxSize, maxBlock, j);
  }

  /** After a successful wait the inner call never reports an empty queue, and a call that started
      with a wait ends with an element. */
  lemma WaitedDequeueSucceeds<T>(run: BlockingRun<T>, maxSize: nat, maxBlock: nat, j: nat)
    requires run.Valid(maxSize, maxBlock) && j < |run.schedule|
    requires run.states[j].waiter.WInner? && run.schedule[j].Consuming?
    ensures run.evs[j] == Tau || run.evs[j].Dequeued?
    ensures run.evs[j].Dequeued? <==> run.states[j + 1].waiter.WOut?
  {
    BlockingStateOf(run, maxSize, maxBlock, j);
    assert run.Linked(j);
    ConsumingInnerKeeps(run.states[j]);
  }

  /** No lost wake-up: while the consumer sleeps in the kernel semaphore and the queue holds an
      element, a post has been made or the producer is on its way to make one. */
  lemma NoLostWakeUp<T>(run: BlockingRun<T>, maxSize: nat, maxBlock: nat, j: nat)
    requires run.Valid(maxSize, maxBlock) && j <= |run.schedule|
    requires run.states[j].waiter.WBlocked?
    ensures var b := run.states[j];
      && b.q.Typed()
      && (0 <= b.count ==> b.posts > 0 || b.signaller.SPost?)
      && (b.q.m.Queue() != [] ==> b.posts > 0 || b.signaller.SPost? || (b.signaller.SAdd? && b.count == -1))
  {
    BlockingStateOf(run, maxSize, maxBlock, j);
  }

  /** With no call under way the semaphore's count is the length of the queue, which is what
      size_approx of the blocking queue returns. */
  lemma QuietCount<T>(run: BlockingRun<T>, maxSize: nat, maxBlock: nat, j: nat)
    requires run.Valid(maxSize, maxBlock) && j <= |run.schedule|
    requires ProducerFree(run.states[j]) && ConsumerFree(run.states[j])
    ensures var b := run.states[j]; b.q.Typed() && b.count == |b.q.m.Queue()| && b.posts == 0
  {
    BlockingStateOf(run, maxSize, maxBlock, j);
  }

  /** The blocking operations keep the FIFO order too. */
  lemma BlockingFifo<T>(run: BlockingRun<T>, maxSize: nat, maxBlock: nat, j: nat)
    requires run.Valid(maxSize, maxBlock) && j <= |run.schedule|
    ensures Enqueues(run.evs[..j]) == Dequeues(run.evs[..j]) + QueueOf(run.states[j].q)
  {
    var qs := seq(|run.states|, i requires 0 <= i < |run.states| => QueueOf(run.states[i].q));
    forall i | 0 <= i < |run.evs| ensures QueueChange(run.evs[i], qs[i], qs[i + 1]) {
      BlockingChange(run, maxSize, maxBlock, i);
    }
    Conserved(run.evs, qs, j);
    StartIsInvariant(run.states[0].q, maxSize, maxBlock);
    assert [] + Enqueues(run.evs[..j]) == Enqueues(run.evs[..j]);
  }

  lemma BlockingChange<T>(run: BlockingRun<T>, maxSize: nat, maxBlock: nat, j: nat)
    requires run.Valid(maxSize, maxBlock) && j < |run.schedule|
    ensures QueueChange(run.evs[j], QueueOf(run.states[j].q), QueueOf(run.states[j + 1].q))
  {
    BlockingStateOf(run, maxSize, maxBlock, j);
    assert run.Linked(j);
    BlockingRefines(run.states[j], run.schedule[j]);
  }
}
