/** The abstract queue: what every access does to the sequence of elements from front to tail. */
module SpscRefinement {
  import opened SpscQueue
  import opened SpscInvariant
  import opened SpscSteps
  import opened SpscConsumer

  /** The effect on the abstract queue that an access reports to its caller. */
  ghost predicate QueueChange<T>(ev: Event<T>, q: seq<T>, q': seq<T>) {
    match ev
    case Enqueued(x) => q' == q + [x]
    case Dequeued(x) => q == [x] + q'
    case Peeked(x) => q' == q && q != [] && q[0] == x
    case Tau => q' == q
    case NoRoom => q' == q
    case NoMemory => q' == q
    case FoundEmpty => q' == q
  }

  // ----- Contents of one block ----------------------------------------------------------------

  lemma ContentsSame<T>(b: Block<T>, b': Block<T>)
    requires b.Ordered() && b'.Typed() && |b'.data| == |b.data| && b'.front == b.front && b'.tail == b.tail
    requires forall j | 0 <= j < |b.data| && j != b.tail :: b'.data[j] == b.data[j]
    ensures b'.Contents() == b.Contents()
  {
    forall j | 0 <= j < b.Count() ensures b'.Contents()[j] == b.Contents()[j] {
      assert Wrap(b.front + j, |b.data|) != b.tail;
    }
  }

  lemma ContentsGrow<T>(b: Block<T>)
    requires b.Ordered() && b.ProducerCount() < |b.data| - 1
    ensures b.(tail := Inc(b.tail, |b.data|)).Typed()
    ensures b.(tail := Inc(b.tail, |b.data|)).Contents() == b.Contents() + [b.data[b.tail]]
  {
    var b' := b.(tail := Inc(b.tail, |b.data|));
    assert b'.Count() == b.Count() + 1 && Wrap(b.front + b.Count(), |b.data|) == b.tail;
    assert forall j | 0 <= j < b'.Count() :: b'.Contents()[j] == (b.Contents() + [b.data[b.tail]])[j];
  }

  lemma ContentsShrink<T>(b: Block<T>)
    requires b.Ordered() && 0 < b.Count()
    ensures b.(front := Inc(b.front, |b.data|)).Typed()
    ensures b.Contents() == [b.data[b.front]] + b.(front := Inc(b.front, |b.data|)).Contents()
  {
    var b' := b.(front := Inc(b.front, |b.data|));
    assert b.Count() == b'.Count() + 1;
    forall j | 0 < j < b.Count() ensures b.Contents()[j] == b'.Contents()[j - 1] {
      assert Wrap(b'.front + (j - 1), |b.data|) == Wrap(b.front + j, |b.data|);
    }
    assert b.Contents()[0] == b.data[Wrap(b.front + 0, |b.data|)];
  }

  // ----- The queue as a list of blocks --------------------------------------------------------

  /** Two memories whose blocks from front to tail hold the same. */
  lemma SameQueue<T>(m: Memory<T>, m': Memory<T>, r: seq<nat>, r': seq<nat>, k: nat)
    requires m.Typed() && Ring(m, r, k) && |r| <= |m.blocks|
    requires m'.Typed() && Ring(m', r', k) && |r'| <= |m'.blocks|
    requires r'[..k + 1] == r[..k + 1]
    requires forall i {:trigger m.blocks[r[i]].Contents()} | 0 <= i <= k ::
      r[i] < |m'.blocks| && m'.blocks[r[i]].Contents() == m.blocks[r[i]].Contents()
    ensures m'.Queue() == m.Queue()
  {
    QueueIsFlat(m, r, k);
    QueueIsFlat(m', r', k);
    FlatSame(m.blocks, m'.blocks, r[..k + 1]);
  }

  lemma LastGrows<T>(bs: seq<Block<T>>, bs': seq<Block<T>>, q: seq<nat>, e: T)
    requires forall i | 0 <= i < |q| :: q[i] < |bs| && bs[q[i]].Typed()
    requires forall i | 0 <= i < |q| :: q[i] < |bs'| && bs'[q[i]].Typed()
    requires 0 < |q|
    requires forall i | 0 <= i < |q| - 1 :: bs'[q[i]].Contents() == bs[q[i]].Contents()
    requires bs'[q[|q| - 1]].Contents() == bs[q[|q| - 1]].Contents() + [e]
    ensures Flat(bs', q) == Flat(bs, q) + [e]
  {
    var n := |q| - 1;
    assert q == q[..n] + [q[n]];
    FlatConcat(bs, q[..n], [q[n]]);
    FlatConcat(bs', q[..n], [q[n]]);
    FlatSame(bs, bs', q[..n]);
    assert [q[n]][1..] == [];
  }

  // ----- Producer -----------------------------------------------------------------------------

  lemma TouchQueue<T>(m: Memory<T>, r: seq<nat>, k: nat, i: nat, b': Block<T>)
    requires MemoryOk(m, r, k, false) && |r| <= |m.blocks| && i < |m.blocks|
    requires Touched(m.blocks[i], b')
    requires forall j | 0 <= j < |b'.data| && j != m.blocks[i].tail :: b'.data[j] == m.blocks[i].data[j]
    ensures m.Set(i, b').Queue() == m.Queue()
  {
    TouchOk(m, r, k, false, i, b');
    assert m.blocks[i].Ordered();
    ContentsSame(m.blocks[i], b');
    SameQueue(m, m.Set(i, b'), r, r, k);
  }

  lemma PublishQueue<T>(m: Memory<T>, p: Producer<T>, r: seq<nat>, k: nat)
    requires ProducerReady(m, p, r, k) && p.PPublish?
    ensures ProducerStep(m, p, []).m.Queue() == m.Queue() + [p.e]
  {
    var b := m.blocks[p.tb];
    assert b.Ordered();
    ContentsGrow(b);
    var m' := m.Set(p.tb, b.(tail := p.nt));
    ProducerPublishes(m, p, r, k);
    QueueIsFlat(m, r, k);
    QueueIsFlat(m', r, k);
    LastGrows(m.blocks, m'.blocks, r[..k + 1], p.e);
  }

  lemma AdvanceQueue<T>(m: Memory<T>, p: Producer<T>, r: seq<nat>, k: nat)
    requires ProducerReady(m, p, r, k) && p.PAdvance?
    ensures ProducerStep(m, p, []).m.Queue() == m.Queue() + [p.e]
  {
    var m' := ProducerStep(m, p, []).m;
    ProducerAdvances(m, p, r, k);
    QueueIsFlat(m, r, k);
    QueueIsFlat(m', r, k + 1);
    assert r[..k + 2] == r[..k + 1] + [p.nb];
    FlatConcat(m.blocks, r[..k + 1], [p.nb]);
    OneElement(m.blocks[p.nb], p.e);
    assert [p.nb][1..] == [];
  }

  lemma OneElement<T>(b: Block<T>, e: T)
    requires b.Typed() && Holds(b, e)
    ensures b.Contents() == [e]
  {
    assert b.Contents()[0] == b.data[Wrap(b.front + 0, |b.data|)];
  }

  /** The place of the blocks after a producer access. */
  function RingAfter<T>(p: Producer<T>, r: seq<nat>, k: nat): (seq<nat>, nat)
    requires k < |r|
  {
    if p.PSplice? then (Spliced(r, k, p.nb), k) else if p.PAdvance? then (r, k + 1) else (r, k)
  }

  lemma ProducerKeepsMemory<T>(m: Memory<T>, p: Producer<T>, memory: seq<T>, r: seq<nat>, k: nat)
    requires ProducerReady(m, p, r, k)
    ensures var (r', k') := RingAfter(p, r, k); ProducerDone(m, ProducerStep(m, p, memory), r, k, r', k')
  {
    match p {
      case PIdle => ProducerLoaded(m, p, p, r, k);
      case PLoadTailBlock(_, _) => ProducerLoadsTailBlock(m, p, r, k);
      case PLoadTail(_, _, _, _) => ProducerLoadsTail(m, p, r, k);
      case PLoadFront(_, _, _, _, _) => ProducerLoadsFront(m, p, r, k);
      case PWrite(_, _, _, _) => ProducerWrites(m, p, r, k);
      case PPublish(_, _, _) => ProducerPublishes(m, p, r, k);
      case PLoadNext(_, _, _) => ProducerLoadsNext(m, p, r, k);
      case PLoadFrontBlock(_, _, _, _) => ProducerLoadsFrontBlock(m, p, r, k);
      case PReloadNext(_, _) => ProducerReloadsNext(m, p, r, k);
      case PNextFront(_, _) => ProducerLoadsNextFront(m, p, r, k);
      case PNextTail(_, _, _) => ProducerLoadsNextTail(m, p, r, k);
      case PNextWrite(_, _, _) => ProducerWritesNext(m, p, r, k);
      case PNextPublish(_, _, _) => ProducerPublishesNext(m, p, r, k);
      case PAlloc(_, _) => ProducerAllocates(m, p, memory, r, k);
      case PLink(_, _, _) => ProducerLinks(m, p, r, k);
      case PSplice(_, _, _) => ProducerSplices(m, p, r, k);
      case PAdvance(_, _) => ProducerAdvances(m, p, r, k);
    }
  }

  lemma TailBlockQueue<T>(m: Memory<T>, p: Producer<T>, r: seq<nat>, k: nat)
    requires ProducerReady(m, p, r, k) && (p.PLoadFront? || p.PWrite?)
    ensures ProducerStep(m, p, []).m.Queue() == m.Queue()
  {
    var b := m.blocks[p.tb];
    assert b.Ordered();
    Refresh(b);
    WriteFree(b, p.e);
    TouchQueue(m, r, k, p.tb, if p.PWrite? then b.(data := b.data[p.bt := p.e]) else b.(localFront := b.front));
  }

  lemma NextBlockQueue<T>(m: Memory<T>, p: Producer<T>, r: seq<nat>, k: nat)
    requires ProducerReady(m, p, r, k) && (p.PNextFront? || p.PNextTail? || p.PNextWrite?)
    ensures ProducerStep(m, p, []).m.Queue() == m.Queue()
  {
    var b := m.blocks[p.nb];
    assert b.Ordered();
    Refresh(b);
    WriteFree(b, p.e);
    TouchQueue(m, r, k, p.nb, if p.PNextWrite? then b.(data := b.data[p.nt := p.e]) else b.(localFront := b.front));
  }

  /** Stores that leave the blocks from front to tail alone. */
  lemma OutsideQueue<T>(m: Memory<T>, m': Memory<T>, r: seq<nat>, r': seq<nat>, k: nat)
    requires m.Typed() && Ring(m, r, k) && |r| <= |m.blocks|
    requires m'.Typed() && Ring(m', r', k) && |r'| <= |m'.blocks|
    requires r'[..k + 1] == r[..k + 1]
    requires forall i | 0 <= i <= k ::
      r[i] < |m'.blocks| && m'.blocks[r[i]].(next := m.blocks[r[i]].next) == m.blocks[r[i]]
    ensures m'.Queue() == m.Queue()
  {
    forall i | 0 <= i <= k ensures m'.blocks[r[i]].Contents() == m.blocks[r[i]].Contents() {
      var b := m'.blocks[r[i]];
      assert b.(next := m.blocks[r[i]].next) == m.blocks[r[i]];
    }
    SameQueue(m, m', r, r', k);
  }

  lemma StoreElsewhere<T>(m: Memory<T>, p: Producer<T>, r: seq<nat>, k: nat)
    requires ProducerReady(m, p, r, k) && (p.PNextPublish? || p.PLink?)
    ensures ProducerStep(m, p, []).m.Typed() && ProducerStep(m, p, []).m.Queue() == m.Queue()
  {
    ProducerKeepsMemory(m, p, [], r, k);
    OutsideQueue(m, ProducerStep(m, p, []).m, r, r, k);
  }

  lemma AllocateElsewhere<T>(m: Memory<T>, p: Producer<T>, memory: seq<T>, r: seq<nat>, k: nat)
    requires ProducerReady(m, p, r, k) && p.PAlloc?
    ensures ProducerStep(m, p, memory).m.Typed() && ProducerStep(m, p, memory).m.Queue() == m.Queue()
  {
    ProducerKeepsMemory(m, p, memory, r, k);
    OutsideQueue(m, ProducerStep(m, p, memory).m, r, r, k);
  }

  lemma SpliceElsewhere<T>(m: Memory<T>, p: Producer<T>, r: seq<nat>, k: nat)
    requires ProducerReady(m, p, r, k) && p.PSplice?
    ensures ProducerStep(m, p, []).m.Typed() && ProducerStep(m, p, []).m.Queue() == m.Queue()
  {
    ProducerKeepsMemory(m, p, [], r, k);
    OutsideQueue(m, ProducerStep(m, p, []).m, r, Spliced(r, k, p.nb), k);
  }

  lemma ProducerChangesQueue<T>(m: Memory<T>, p: Producer<T>, memory: seq<T>, r: seq<nat>, k: nat)
    requires ProducerReady(m, p, r, k)
    ensures ProducerStep(m, p, memory).m.Typed()
    ensures QueueChange(ProducerStep(m, p, memory).ev, m.Queue(), ProducerStep(m, p, memory).m.Queue())
  {
    ProducerKeepsMemory(m, p, memory, r, k);
    if p.PPublish? {
      PublishQueue(m, p, r, k);
    } else if p.PAdvance? {
      AdvanceQueue(m, p, r, k);
    } else if p.PLoadFront? || p.PWrite? {
      TailBlockQueue(m, p, r, k);
    } else if p.PNextFront? || p.PNextTail? || p.PNextWrite? {
      NextBlockQueue(m, p, r, k);
    } else if p.PNextPublish? || p.PLink? {
      StoreElsewhere(m, p, r, k);
    } else if p.PAlloc? {
      AllocateElsewhere(m, p, memory, r, k);
    } else if p.PSplice? {
      SpliceElsewhere(m, p, r, k);
    }
  }

  // ----- Consumer -----------------------------------------------------------------------------

  function RingAfterConsumer<T>(c: Consumer<T>, r: seq<nat>, k: nat): (seq<nat>, int)
    requires 0 < |r|
  {
    if c.CAdvance? then (Rotated(r), k - 1) else (r, k)
  }

  lemma ConsumerKeepsMemory<T>(m: Memory<T>, c: Consumer<T>, r: seq<nat>, k: nat, ahead: bool)
    requires ConsumerReady(m, c, r, k, ahead)
    requires ahead ==> k + 1 < |r|
    ensures var (r', k') := RingAfterConsumer(c, r, k);
      0 <= k' && ConsumerDone(m, ConsumerStep(m, c), r, k, ahead, r', k')
  {
    match c {
      case CIdle => ConsumerLoaded(m, c, c, r, k, ahead);
      case CLoadFrontBlock(_) => ConsumerLoadsFrontBlock(m, c, r, k, ahead);
      case CLoadFront(_, _, _) => ConsumerLoadsFront(m, c, r, k, ahead);
      case CLoadTail(_, _, _) => ConsumerLoadsTail(m, c, r, k, ahead);
      case CLoadTailBlock(_, _) => ConsumerLoadsTailBlock(m, c, r, k, ahead);
      case CReloadFrontBlock(_) => ConsumerLoadsFrontBlock(m, c, r, k, ahead);
      case CReloadTail(_, _) => ConsumerLoadsTail(m, c, r, k, ahead);
      case CReloadFront(_, _, _) => ConsumerLoadsFront(m, c, r, k, ahead);
      case CLoadNext(_, _) => ConsumerLoadsNext(m, c, r, k, ahead);
      case CNextFront(_, _) => ConsumerLoadsNext(m, c, r, k, ahead);
      case CNextTail(_, _, _) => ConsumerLoadsNextTail(m, c, r, k, ahead);
      case CAdvance(_, _) => ConsumerAdvances(m, c, r, k, ahead);
      case CRead(_, _, _) => ConsumerReads(m, c, r, k, ahead);
      case CPublish(_, _, _) => ConsumerPublishes(m, c, r, k, ahead);
    }
  }

  lemma RefreshQueue<T>(m: Memory<T>, r: seq<nat>, k: nat, ahead: bool, i: nat)
    requires MemoryOk(m, r, k, ahead) && |r| <= |m.blocks| && i < |m.blocks|
    ensures m.Set(i, m.blocks[i].(localTail := m.blocks[i].tail)).Queue() == m.Queue()
  {
    var b := m.blocks[i];
    RefreshMemory(m, r, k, ahead, i);
    assert b.Ordered();
    ContentsSame(b, b.(localTail := b.tail));
    SameQueue(m, m.Set(i, b.(localTail := b.tail)), r, r, k);
  }

  lemma HeadOfFlat<T>(bs: seq<Block<T>>, q: seq<nat>)
    requires forall i | 0 <= i < |q| :: q[i] < |bs| && bs[q[i]].Typed()
    requires 0 < |q|
    ensures Flat(bs, q) == bs[q[0]].Contents() + Flat(bs, q[1..])
  {
  }

  /** The drained front block contributes nothing. */
  lemma AdvanceFrontQueue<T>(m: Memory<T>, c: Consumer<T>, r: seq<nat>, k: nat, ahead: bool)
    requires ConsumerReady(m, c, r, k, ahead) && c.CAdvance? && |r| <= |m.blocks|
    requires ahead ==> k + 1 < |r|
    ensures ConsumerStep(m, c).m.Queue() == m.Queue()
  {
    var m' := ConsumerStep(m, c).m;
    ConsumerAdvances(m, c, r, k, ahead);
    QueueIsFlat(m, r, k);
    QueueIsFlat(m', Rotated(r), k - 1);
    HeadOfFlat(m.blocks, r[..k + 1]);
    assert m.blocks[r[0]].Contents() == [];
    assert r[..k + 1][1..] == Rotated(r)[..k];
  }

  lemma PublishFrontQueue<T>(m: Memory<T>, c: Consumer<T>, r: seq<nat>, k: nat, ahead: bool)
    requires ConsumerReady(m, c, r, k, ahead) && c.CPublish? && |r| <= |m.blocks|
    ensures m.Queue() == [c.x] + ConsumerStep(m, c).m.Queue()
  {
    var m' := ConsumerStep(m, c).m;
    var b := m.blocks[c.b];
    assert b.Ordered();
    Shadows(b);
    ContentsShrink(b);
    ConsumerPublishes(m, c, r, k, ahead);
    QueueIsFlat(m, r, k);
    QueueIsFlat(m', r, k);
    var q := r[..k + 1];
    HeadOfFlat(m.blocks, q);
    HeadOfFlat(m'.blocks, q);
    FlatSame(m.blocks, m'.blocks, q[1..]);
  }

  /** What peek returns is the first element of the queue at that instant. */
  lemma PeekQueue<T>(m: Memory<T>, c: Consumer<T>, r: seq<nat>, k: nat, ahead: bool)
    requires ConsumerReady(m, c, r, k, ahead) && c.CRead? && |r| <= |m.blocks|
    ensures m.Queue() != [] && m.Queue()[0] == m.blocks[c.b].data[c.i]
  {
    var q := r[..k + 1];
    QueueIsFlat(m, r, k);
    HeadOfFlat(m.blocks, q);
    var b := m.blocks[c.b];
    assert b.Ordered();
    Shadows(b);
    if c.b != r[0] {
      SecondIsFilled(m, r, k, ahead);
      HeadOfFlat(m.blocks, q[1..]);
      assert m.blocks[r[0]].Contents() == [];
    }
    ContentsShrink(b);
  }

  lemma ConsumerChangesQueue<T>(m: Memory<T>, c: Consumer<T>, r: seq<nat>, k: nat, ahead: bool)
    requires ConsumerReady(m, c, r, k, ahead) && |r| <= |m.blocks|
    requires ahead ==> k + 1 < |r|
    ensures ConsumerStep(m, c).m.Typed()
    ensures QueueChange(ConsumerStep(m, c).ev, m.Queue(), ConsumerStep(m, c).m.Queue())
  {
    ConsumerKeepsMemory(m, c, r, k, ahead);
    if c.CLoadTail? || c.CReloadTail? {
      RefreshQueue(m, r, k, ahead, c.fb);
    } else if c.CNextTail? && !c.peek {
      RefreshQueue(m, r, k, ahead, c.nb);
    } else if c.CAdvance? {
      AdvanceFrontQueue(m, c, r, k, ahead);
    } else if c.CPublish? {
      PublishFrontQueue(m, c, r, k, ahead);
    } else if c.CRead? {
      PeekQueue(m, c, r, k, ahead);
    }
  }
}
