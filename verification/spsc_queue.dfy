/** The lock-free queue of lock_free/one_2_one/readerwriterqueue.h as a transition system.

    One producer and one consumer run interleaved; every load or store of a shared location is a
    step of its own.  The locals of a running call live in the program counter of its thread. */
module SpscQueue {

  // ----- Circular indices ---------------------------------------------------------------------

  /** `(i + 1) & sizeMask` for a block of n slots (see MaskedIncrement in PowersOfTwo). */
  function Inc(i: nat, n: nat): nat
    requires i < n
  {
    if i + 1 == n then 0 else i + 1
  }

  /** How far b lies ahead of a on a circle of n slots. */
  function Dist(a: nat, b: nat, n: nat): (d: nat)
    requires a < n && b < n
  {
    if a <= b then b - a else b - a + n
  }

  function Wrap(i: nat, n: nat): nat
    requires i < 2 * n
  {
    if i < n then i else i - n
  }

  // ----- Shared memory ------------------------------------------------------------------------

  /** A block; `next` is the number of the following block, and sizeMask is |data| - 1. */
  datatype Block<T> = Block(front: nat, localTail: nat, tail: nat, localFront: nat, next: nat, data: seq<T>) {
    /** All four indices are slots of the block. */
    predicate Typed() {
      2 <= |data| && front < |data| && tail < |data| && localFront < |data| && localTail < |data|
    }

    function Count(): nat
      requires Typed()
    {
      Dist(front, tail, |data|)
    }

    /** What the producer believes to be in the block; never less than Count. */
    function ProducerCount(): nat
      requires Typed()
    {
      Dist(localFront, tail, |data|)
    }

    /** What the consumer believes to be in the block; never more than Count. */
    function ConsumerCount(): nat
      requires Typed()
    {
      Dist(front, localTail, |data|)
    }

    predicate Full()
      requires Typed()
    {
      Count() == |data| - 1
    }

    /** localFront, front, localTail and tail lie in this order on the circle, and the whole
        stretch is shorter than the circle. */
    predicate Ordered() {
      && Typed()
      && Dist(localFront, front, |data|) + Dist(front, localTail, |data|) + Dist(localTail, tail, |data|) < |data|
    }

    function Contents(): seq<T>
      requires Typed()
    {
      seq(Count(), i requires 0 <= i < Count() => data[Wrap(front + i, |data|)])
    }
  }

  datatype Memory<T> = Memory(
    blocks: seq<Block<T>>, frontBlock: nat, tailBlock: nat, largest: nat, maxBlock: nat)
  {
    predicate Typed() {
      && frontBlock < |blocks| && tailBlock < |blocks| && 2 <= largest
      && forall i | 0 <= i < |blocks| :: blocks[i].Typed() && blocks[i].next < |blocks|
    }

    /** Block i rewritten in place. */
    function Set(i: nat, b: Block<T>): (m: Memory<T>)
      requires Typed() && i < |blocks|
      requires b.Typed() && b.next < |blocks|
      ensures m.Typed()
    {
      this.(blocks := blocks[i := b])
    }

    /** The size of a further block: largestBlockSize, doubled while it is below MAX_BLOCK_SIZE. */
    function NewBlockSize(): nat {
      if largest >= maxBlock then largest else largest * 2
    }

    /** The elements met on the way from block b along `next` up to the tail block, in at most
        `fuel` hops. */
    function Walk(b: nat, fuel: nat): seq<T>
      requires Typed() && b < |blocks|
      decreases fuel
    {
      if b == tailBlock || fuel == 0 then blocks[b].Contents()
      else blocks[b].Contents() + Walk(blocks[b].next, fuel - 1)
    }

    /** The abstract value of the queue. */
    function Queue(): seq<T>
      requires Typed()
    {
      Walk(frontBlock, |blocks|)
    }
  }

  // ----- Threads ------------------------------------------------------------------------------

  /** Where the producer stands in inner_enqueue; each constructor names its next access. */
  datatype Producer<T> =
    | PIdle
    | PLoadTailBlock(e: T, alloc: bool)
    | PLoadTail(e: T, alloc: bool, tb: nat, bf: nat)
    | PLoadFront(e: T, alloc: bool, tb: nat, bt: nat, nt: nat)
    | PWrite(e: T, tb: nat, bt: nat, nt: nat)
    | PPublish(e: T, tb: nat, nt: nat)
    | PLoadNext(e: T, alloc: bool, tb: nat)
    | PLoadFrontBlock(e: T, alloc: bool, tb: nat, nx: nat)
    | PReloadNext(e: T, tb: nat)
    | PNextFront(e: T, nb: nat)
    | PNextTail(e: T, nb: nat, nf: nat)
    | PNextWrite(e: T, nb: nat, nt: nat)
    | PNextPublish(e: T, nb: nat, nt: nat)
    | PAlloc(e: T, tb: nat)
    | PLink(e: T, tb: nat, nb: nat)
    | PSplice(e: T, tb: nat, nb: nat)
    | PAdvance(e: T, nb: nat)

  /** Where the consumer stands in try_dequeue (pop takes the same steps) or, if `peek`, in peek. */
  datatype Consumer<T> =
    | CIdle
    | CLoadFrontBlock(peek: bool)
    | CLoadFront(peek: bool, fb: nat, bt: nat)
    | CLoadTail(peek: bool, fb: nat, bf: nat)
    | CLoadTailBlock(peek: bool, fb: nat)
    | CReloadFrontBlock(peek: bool)
    | CReloadTail(peek: bool, fb: nat)
    | CReloadFront(peek: bool, fb: nat, bt: nat)
    | CLoadNext(peek: bool, fb: nat)
    | CNextFront(peek: bool, nb: nat)
    | CNextTail(peek: bool, nb: nat, nf: nat)
    | CAdvance(nb: nat, nf: nat)
    | CRead(peek: bool, b: nat, i: nat)
    | CPublish(x: T, b: nat, i: nat)

  /** What a step tells its caller; all but Tau are returns from a call. */
  datatype Event<T> =
    | Tau
    | Enqueued(x: T)
    | NoRoom
    | NoMemory
    | Dequeued(x: T)
    | Peeked(x: T)
    | FoundEmpty

  /** Block and slot numbers held in a program counter exist. */
  predicate ProducerTyped<T>(m: Memory<T>, p: Producer<T>) {
    var n := |m.blocks|;
    match p
    case PIdle => true
    case PLoadTailBlock(_, _) => true
    case PLoadTail(_, _, tb, _) => tb < n
    case PLoadFront(_, _, tb, bt, nt) => tb < n && bt < |m.blocks[tb].data| && nt < |m.blocks[tb].data|
    case PWrite(_, tb, bt, nt) => tb < n && bt < |m.blocks[tb].data| && nt < |m.blocks[tb].data|
    case PPublish(_, tb, nt) => tb < n && nt < |m.blocks[tb].data|
    case PLoadNext(_, _, tb) => tb < n
    case PLoadFrontBlock(_, _, tb, nx) => tb < n && nx < n
    case PReloadNext(_, tb) => tb < n
    case PNextFront(_, nb) => nb < n
    case PNextTail(_, nb, nf) => nb < n && nf < |m.blocks[nb].data|
    case PNextWrite(_, nb, nt) => nb < n && nt < |m.blocks[nb].data|
    case PNextPublish(_, nb, nt) => nb < n && nt < |m.blocks[nb].data|
    case PAlloc(_, tb) => tb < n
    case PLink(_, tb, nb) => tb < n && nb < n
    case PSplice(_, tb, nb) => tb < n && nb < n
    case PAdvance(_, nb) => nb < n
  }

  predicate ConsumerTyped<T>(m: Memory<T>, c: Consumer<T>) {
    var n := |m.blocks|;
    match c
    case CIdle => true
    case CLoadFrontBlock(_) => true
    case CLoadFront(_, fb, _) => fb < n
    case CLoadTail(_, fb, bf) => fb < n && bf < |m.blocks[fb].data|
    case CLoadTailBlock(_, fb) => fb < n
    case CReloadFrontBlock(_) => true
    case CReloadTail(_, fb) => fb < n
    case CReloadFront(_, fb, _) => fb < n
    case CLoadNext(_, fb) => fb < n
    case CNextFront(_, nb) => nb < n
    case CNextTail(_, nb, nf) => nb < n && nf < |m.blocks[nb].data|
    case CAdvance(nb, nf) => nb < n && nf < |m.blocks[nb].data|
    case CRead(_, b, i) => b < n && i < |m.blocks[b].data|
    case CPublish(_, b, i) => b < n && i < |m.blocks[b].data|
  }

  // ----- Steps --------------------------------------------------------------------------------

  datatype ProducerOutcome<T> = POut(m: Memory<T>, p: Producer<T>, ev: Event<T>)

  datatype ConsumerOutcome<T> = COut(m: Memory<T>, c: Consumer<T>, ev: Event<T>)

  /** One access of inner_enqueue.  `memory` is what malloc hands out, of the requested size or
      (when of another size) refused. */
  function ProducerStep<T>(m: Memory<T>, p: Producer<T>, memory: seq<T>): ProducerOutcome<T>
    requires m.Typed() && ProducerTyped(m, p)
  {
    match p
    case PIdle => POut(m, p, Tau)
    case PLoadTailBlock(e, alloc) =>
      POut(m, PLoadTail(e, alloc, m.tailBlock, m.blocks[m.tailBlock].localFront), Tau)
    case PLoadTail(e, alloc, tb, bf) =>
      var b := m.blocks[tb];
      var nt := Inc(b.tail, |b.data|);
      POut(m, if nt != bf then PWrite(e, tb, b.tail, nt) else PLoadFront(e, alloc, tb, b.tail, nt), Tau)
    case PLoadFront(e, alloc, tb, bt, nt) =>
      var b := m.blocks[tb];
      POut(m.Set(tb, b.(localFront := b.front)),
           if nt != b.front then PWrite(e, tb, bt, nt) else PLoadNext(e, alloc, tb), Tau)
    case PWrite(e, tb, bt, nt) =>
      var b := m.blocks[tb];
      POut(m.Set(tb, b.(data := b.data[bt := e])), PPublish(e, tb, nt), Tau)
    case PPublish(e, tb, nt) =>
      POut(m.Set(tb, m.blocks[tb].(tail := nt)), PIdle, Enqueued(e))
    case PLoadNext(e, alloc, tb) =>
      POut(m, PLoadFrontBlock(e, alloc, tb, m.blocks[tb].next), Tau)
    case PLoadFrontBlock(e, alloc, tb, nx) =>
      if nx != m.frontBlock then POut(m, PReloadNext(e, tb), Tau)
      else if alloc then POut(m, PAlloc(e, tb), Tau)
      else POut(m, PIdle, NoRoom)
    case PReloadNext(e, tb) => POut(m, PNextFront(e, m.blocks[tb].next), Tau)
    case PNextFront(e, nb) =>
      var b := m.blocks[nb];
      POut(m.Set(nb, b.(localFront := b.front)), PNextTail(e, nb, b.front), Tau)
    case PNextTail(e, nb, nf) =>
      var b := m.blocks[nb];
      POut(m.Set(nb, b.(localFront := nf)), PNextWrite(e, nb, b.tail), Tau)
    case PNextWrite(e, nb, nt) =>
      var b := m.blocks[nb];
      POut(m.Set(nb, b.(data := b.data[nt := e])), PNextPublish(e, nb, nt), Tau)
    case PNextPublish(e, nb, nt) =>
      var b := m.blocks[nb];
      POut(m.Set(nb, b.(tail := Inc(nt, |b.data|))), PAdvance(e, nb), Tau)
    case PAlloc(e, tb) =>
      if |memory| != m.NewBlockSize() then POut(m, PIdle, NoMemory)
      else
        var nb := |m.blocks|;
        var b := Block(0, 1, 1, 0, nb, memory[0 := e]);
        POut(m.(blocks := m.blocks + [b], largest := m.NewBlockSize()), PLink(e, tb, nb), Tau)
    case PLink(e, tb, nb) =>
      POut(m.Set(nb, m.blocks[nb].(next := m.blocks[tb].next)), PSplice(e, tb, nb), Tau)
    case PSplice(e, tb, nb) =>
      POut(m.Set(tb, m.blocks[tb].(next := nb)), PAdvance(e, nb), Tau)
    case PAdvance(e, nb) => POut(m.(tailBlock := nb), PIdle, Enqueued(e))
  }

  /** One access of try_dequeue or peek. */
  function ConsumerStep<T>(m: Memory<T>, c: Consumer<T>): ConsumerOutcome<T>
    requires m.Typed() && ConsumerTyped(m, c)
  {
    match c
    case CIdle => COut(m, c, Tau)
    case CLoadFrontBlock(peek) =>
      COut(m, CLoadFront(peek, m.frontBlock, m.blocks[m.frontBlock].localTail), Tau)
    case CLoadFront(peek, fb, bt) =>
      var bf := m.blocks[fb].front;
      COut(m, if bf != bt then CRead(peek, fb, bf) else CLoadTail(peek, fb, bf), Tau)
    case CLoadTail(peek, fb, bf) =>
      var b := m.blocks[fb];
      COut(m.Set(fb, b.(localTail := b.tail)),
           if bf != b.tail then CRead(peek, fb, bf) else CLoadTailBlock(peek, fb), Tau)
    case CLoadTailBlock(peek, fb) =>
      if fb != m.tailBlock then COut(m, CReloadFrontBlock(peek), Tau) else COut(m, CIdle, FoundEmpty)
    case CReloadFrontBlock(peek) => COut(m, CReloadTail(peek, m.frontBlock), Tau)
    case CReloadTail(peek, fb) =>
      var b := m.blocks[fb];
      COut(m.Set(fb, b.(localTail := b.tail)), CReloadFront(peek, fb, b.tail), Tau)
    case CReloadFront(peek, fb, bt) =>
      var bf := m.blocks[fb].front;
      COut(m, if bf != bt then CRead(peek, fb, bf) else CLoadNext(peek, fb), Tau)
    case CLoadNext(peek, fb) => COut(m, CNextFront(peek, m.blocks[fb].next), Tau)
    case CNextFront(peek, nb) => COut(m, CNextTail(peek, nb, m.blocks[nb].front), Tau)
    case CNextTail(peek, nb, nf) =>
      var b := m.blocks[nb];
      if peek then COut(m, CRead(peek, nb, nf), Tau)
      else COut(m.Set(nb, b.(localTail := b.tail)), CAdvance(nb, nf), Tau)
    case CAdvance(nb, nf) => COut(m.(frontBlock := nb), CRead(false, nb, nf), Tau)
    case CRead(peek, b, i) =>
      var x := m.blocks[b].data[i];
      if peek then COut(m, CIdle, Peeked(x)) else COut(m, CPublish(x, b, i), Tau)
    case CPublish(x, b, i) =>
      var blk := m.blocks[b];
      COut(m.Set(b, blk.(front := Inc(i, |blk.data|))), CIdle, Dequeued(x))
  }

  /** The asserts of try_dequeue, peek and inner_enqueue that are due at the next access. */
  predicate AssertsHold<T>(m: Memory<T>, p: Producer<T>, c: Consumer<T>)
    requires m.Typed() && ProducerTyped(m, p) && ConsumerTyped(m, c)
  {
    && (p.PNextTail? ==> p.nf == m.blocks[p.nb].tail)
    && (c.CNextTail? ==> c.nf != m.blocks[c.nb].tail)
  }
}
