/** Runs of the lock-free queue: every interleaving of one producer and one consumer. */
module SpscSystem {
  import opened SpscQueue
  import opened SpscInvariant
  import opened SpscSteps
  import opened SpscConsumer
  import opened SpscRefinement

  datatype State<T> = State(m: Memory<T>, p: Producer<T>, c: Consumer<T>) {
    predicate Typed() {
      m.Typed() && ProducerTyped(m, p) && ConsumerTyped(m, c)
    }

    ghost predicate InvAt(r: seq<nat>, k: nat) {
      ProducerReady(m, p, r, k) && ConsumerReady(m, c, r, k, p.PAdvance?)
    }

    ghost predicate Inv() {
      exists r, k: nat :: InvAt(r, k)
    }
  }

  datatype Action<T> =
    | StartEnqueue(e: T, alloc: bool)
    | StartDequeue
    | StartPeek
    | Produce(memory: seq<T>)
    | Consume

  datatype Outcome<T> = Outcome(s: State<T>, ev: Event<T>)

  /** One step of the system; a call its thread is not ready for does nothing. */
  function Step<T>(s: State<T>, a: Action<T>): Outcome<T>
    requires s.Typed()
  {
    match a
    case StartEnqueue(e, alloc) =>
      Outcome(if s.p.PIdle? then s.(p := PLoadTailBlock(e, alloc)) else s, Tau)
    case StartDequeue => Outcome(if s.c.CIdle? then s.(c := CLoadFrontBlock(false)) else s, Tau)
    case StartPeek => Outcome(if s.c.CIdle? then s.(c := CLoadFrontBlock(true)) else s, Tau)
    case Produce(memory) =>
      var o := ProducerStep(s.m, s.p, memory);
      Outcome(State(o.m, o.p, s.c), o.ev)
    case Consume =>
      var o := ConsumerStep(s.m, s.c);
      Outcome(State(o.m, s.p, o.c), o.ev)
  }

  lemma InvIsTyped<T>(s: State<T>)
    requires s.Inv()
    ensures s.Typed()
  {
    var r, k: nat :| s.InvAt(r, k);
  }

  // ----- One step -----------------------------------------------------------------------------

  lemma ProduceKeeps<T>(s: State<T>, memory: seq<T>, r: seq<nat>, k: nat)
    requires s.InvAt(r, k)
    ensures Step(s, Produce(memory)).s.InvAt(RingAfter(s.p, r, k).0, RingAfter(s.p, r, k).1)
  {
    var (r', k') := RingAfter(s.p, r, k);
    ProducerKeepsMemory(s.m, s.p, memory, r, k);
    ConsumerStable(s.m, ProducerStep(s.m, s.p, memory).m, s.c, r, k, r', k');
  }

  lemma ConsumeKeeps<T>(s: State<T>, r: seq<nat>, k: nat)
    requires s.InvAt(r, k)
    ensures 0 <= RingAfterConsumer(s.c, r, k).1
    ensures Step(s, Consume).s.InvAt(RingAfterConsumer(s.c, r, k).0, RingAfterConsumer(s.c, r, k).1)
  {
    var (r', k') := RingAfterConsumer(s.c, r, k);
    ConsumerKeepsMemory(s.m, s.c, r, k, s.p.PAdvance?);
    ProducerStable(s.m, ConsumerStep(s.m, s.c).m, s.p, r, k, r', k');
  }

  lemma StartKeeps<T>(s: State<T>, a: Action<T>, r: seq<nat>, k: nat)
    requires s.InvAt(r, k) && (a.StartEnqueue? || a.StartDequeue? || a.StartPeek?)
    ensures Step(s, a).s.InvAt(r, k)
  {
  }

  /** Every step of either thread keeps the invariant and does to the abstract queue what its
      event says. */
  lemma StepRefines<T>(s: State<T>, a: Action<T>)
    requires s.Inv()
    ensures s.Typed() && Step(s, a).s.Inv() && Step(s, a).s.Typed()
    ensures QueueChange(Step(s, a).ev, s.m.Queue(), Step(s, a).s.m.Queue())
  {
    var r, k: nat :| s.InvAt(r, k);
    match a {
      case Produce(memory) =>
        ProduceKeeps(s, memory, r, k);
        ProducerChangesQueue(s.m, s.p, memory, r, k);
      case Consume =>
        ConsumeKeeps(s, r, k);
        ConsumerChangesQueue(s.m, s.c, r, k, s.p.PAdvance?);
      case _ => StartKeeps(s, a, r, k);
    }
  }

  /** No assert of try_dequeue, peek or inner_enqueue fails in a state with the invariant. */
  lemma AssertsNeverFail<T>(s: State<T>)
    requires s.Inv()
    ensures s.Typed() && AssertsHold(s.m, s.p, s.c)
  {
    var r, k: nat :| s.InvAt(r, k);
    if s.p.PNextTail? {
      ProducerLoadsNextTail(s.m, s.p, r, k);
    }
    if s.c.CNextTail? {
      ConsumerLoadsNextTail(s.m, s.c, r, k, false || s.p.PAdvance?);
    }
  }
}
