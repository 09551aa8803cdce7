/** Every access keeps the invariant of the queue and changes its abstract value as it reports. */
module SpscSteps {
  import opened SpscQueue
  import opened SpscInvariant

  // ----- What each thread may rely on ---------------------------------------------------------

  /** All a producer access can do to what the consumer looks at. */
  ghost predicate ProducerEffect<T>(m: Memory<T>, m': Memory<T>, r: seq<nat>, k: nat, r': seq<nat>, k': nat) {
    && m.Typed() && m'.Typed() && k < |r| && k' < |r'|
    && m'.frontBlock == m.frontBlock && |m.blocks| <= |m'.blocks| && k <= k'
    && (forall i | 0 <= i < |m.blocks| ::
          && |m'.blocks[i].data| == |m.blocks[i].data|
          && m'.blocks[i].front == m.blocks[i].front && m'.blocks[i].localTail == m.blocks[i].localTail)
    && (0 < k ==> r'[1] == r[1] && m'.blocks[m.frontBlock].tail == m.blocks[m.frontBlock].tail)
    && var f, f' := m.blocks[m.frontBlock], m'.blocks[m.frontBlock];
       (0 < f.ConsumerCount() ==> f'.data[f.front] == f.data[f.front])
  }

  lemma ConsumerStable<T>(m: Memory<T>, m': Memory<T>, c: Consumer<T>, r: seq<nat>, k: nat, r': seq<nat>, k': nat)
    requires ProducerEffect(m, m', r, k, r', k')
    requires ConsumerTyped(m, c) && ConsumerKnows(m, c, r, k)
    ensures ConsumerTyped(m', c) && ConsumerKnows(m', c, r', k')
  {
  }

  /** All a consumer access can do to what the producer looks at: move on in the front block, or
      leave the front block for the next one. */
  ghost predicate ConsumerEffect<T>(m: Memory<T>, m': Memory<T>, r: seq<nat>, k: nat, r': seq<nat>, k': nat) {
    && m.Typed() && m'.Typed() && 0 < |r| && r[0] == m.frontBlock
    && m'.tailBlock == m.tailBlock && m'.largest == m.largest && m'.maxBlock == m.maxBlock
    && |m'.blocks| == |m.blocks|
    && (forall i | 0 <= i < |m.blocks| ::
          && m'.blocks[i].data == m.blocks[i].data && m'.blocks[i].next == m.blocks[i].next
          && m'.blocks[i].tail == m.blocks[i].tail && m'.blocks[i].localFront == m.blocks[i].localFront
          && (i != m.frontBlock ==> m'.blocks[i].front == m.blocks[i].front))
    && (|| (r' == r && k' == k)
        || (r' == r[1..] + [r[0]] && k' + 1 == k))
  }

  lemma ProducerStable<T>(m: Memory<T>, m': Memory<T>, p: Producer<T>, r: seq<nat>, k: nat, r': seq<nat>, k': nat)
    requires Ring(m, r, k)
    requires ConsumerEffect(m, m', r, k, r', k')
    requires ProducerTyped(m, p) && ProducerKnows(m, p, r, k)
    ensures ProducerTyped(m', p) && ProducerKnows(m', p, r', k')
  {
  }

  // ----- Arithmetic of one block --------------------------------------------------------------

  /** The next slot is not the first taken one: the block has room; else it is full. */
  lemma RoomLeft<T>(b: Block<T>)
    requires b.Ordered()
    ensures Inc(b.tail, |b.data|) != b.localFront ==> b.ProducerCount() < |b.data| - 1
    ensures Inc(b.tail, |b.data|) == b.localFront ==> b.ProducerCount() == |b.data| - 1
  {
  }

  /** Refreshing a shadow copy keeps the order of the indices. */
  lemma Refresh<T>(b: Block<T>)
    requires b.Ordered()
    ensures b.(localFront := b.front).Ordered() && b.(localTail := b.tail).Ordered()
  {
  }

  /** The slot at tail is not a live one. */
  lemma WriteFree<T>(b: Block<T>, e: T)
    requires b.Ordered()
    ensures b.(data := b.data[b.tail := e]).Ordered()
    ensures 0 < b.Count() ==> b.tail != b.front
    ensures b.ConsumerCount() <= b.Count() <= b.ProducerCount()
  {
  }

  lemma PublishOne<T>(b: Block<T>)
    requires b.Ordered() && b.ProducerCount() < |b.data| - 1
    ensures b.(tail := Inc(b.tail, |b.data|)).Ordered()
    ensures b.(tail := Inc(b.tail, |b.data|)).Count() == b.Count() + 1
    ensures b.Count() == 0 ==> b.front == b.tail
  {
  }

  lemma ConsumeOne<T>(b: Block<T>)
    requires b.Ordered() && 0 < b.ConsumerCount()
    ensures b.(front := Inc(b.front, |b.data|)).Ordered()
    ensures b.(front := Inc(b.front, |b.data|)).Count() + 1 == b.Count()
  {
  }

  // ----- Memory -------------------------------------------------------------------------------

  /** A block rewritten without moving front or tail. */
  ghost predicate Touched<T>(b: Block<T>, b': Block<T>) {
    && b.Typed() && b'.Ordered() && |b'.data| == |b.data|
    && b'.front == b.front && b'.tail == b.tail && b'.next == b.next
  }

  lemma TouchOk<T>(m: Memory<T>, r: seq<nat>, k: nat, ahead: bool, i: nat, b': Block<T>)
    requires MemoryOk(m, r, k, ahead) && i < |m.blocks|
    requires Touched(m.blocks[i], b')
    ensures MemoryOk(m.Set(i, b'), r, k, ahead)
  {
    var m' := m.Set(i, b');
    forall j | 0 <= j < |m.blocks| ensures m'.blocks[j].Ordered() && m'.blocks[j].Count() == m.blocks[j].Count() {
      assert m.blocks[j].Ordered();
    }
    assert Ring(m', r, k);
    assert forall j {:trigger m'.blocks[r[j]].Full()} | 0 < j < k :: m.blocks[r[j]].Full() && m'.blocks[r[j]].Full();
  }

  /** The j-th block of the ring rewritten, as full or empty as its place demands. */
  lemma SetKeepsMemory<T>(m: Memory<T>, r: seq<nat>, k: nat, ahead: bool, j: nat, b': Block<T>, ahead': bool)
    requires MemoryOk(m, r, k, ahead) && j < |r| && (ahead ==> ahead')
    requires b'.Ordered() && b'.next == m.blocks[r[j]].next
    requires 0 < j < k ==> b'.Full()
    requires 0 < j == k ==> 0 < b'.Count()
    requires k < j && !(j == k + 1 && ahead') ==> b'.Count() == 0
    ensures MemoryOk(m.Set(r[j], b'), r, k, ahead')
  {
    var m' := m.Set(r[j], b');
    assert forall l | 0 <= l < |m.blocks| :: m'.blocks[l] == if l == r[j] then b' else m.blocks[l];
  }

  /** A store of the producer into one block seen from the consumer. */
  lemma SetIsProducerEffect<T>(m: Memory<T>, r: seq<nat>, k: nat, i: nat, b': Block<T>)
    requires MemoryOk(m, r, k, false) && i < |m.blocks|
    requires b'.Typed() && b'.next < |m.blocks| && |b'.data| == |m.blocks[i].data|
    requires b'.front == m.blocks[i].front && b'.localTail == m.blocks[i].localTail
    requires i == m.frontBlock && 0 < k ==> b'.tail == m.blocks[i].tail
    requires 0 < m.blocks[i].ConsumerCount() ==> b'.data[b'.front] == m.blocks[i].data[b'.front]
    ensures ProducerEffect(m, m.Set(i, b'), r, k, r, k)
  {
  }

  /** The producer rewrites a block outside its live slots. */
  lemma ProducerTouches<T>(m: Memory<T>, r: seq<nat>, k: nat, i: nat, b': Block<T>)
    requires MemoryOk(m, r, k, false) && i < |m.blocks|
    requires Touched(m.blocks[i], b') && b'.localTail == m.blocks[i].localTail
    requires 0 < m.blocks[i].ConsumerCount() ==> b'.data[b'.front] == m.blocks[i].data[b'.front]
    ensures MemoryOk(m.Set(i, b'), r, k, false)
    ensures ProducerEffect(m, m.Set(i, b'), r, k, r, k)
  {
    TouchOk(m, r, k, false, i, b');
    SetIsProducerEffect(m, r, k, i, b');
  }

  /** The store of tail in the tail block. */
  lemma PublishMemory<T>(m: Memory<T>, r: seq<nat>, k: nat, b': Block<T>)
    requires MemoryOk(m, r, k, false)
    requires m.blocks[m.tailBlock].ProducerCount() < |m.blocks[m.tailBlock].data| - 1
    requires var b := m.blocks[m.tailBlock]; b' == b.(tail := Inc(b.tail, |b.data|))
    ensures MemoryOk(m.Set(m.tailBlock, b'), r, k, false)
    ensures ProducerEffect(m, m.Set(m.tailBlock, b'), r, k, r, k)
  {
    PublishOne(m.blocks[m.tailBlock]);
    SetKeepsMemory(m, r, k, false, k, b', false);
    SetIsProducerEffect(m, r, k, m.tailBlock, b');
  }

  /** The store of tail in the empty block ahead. */
  lemma PublishAhead<T>(m: Memory<T>, r: seq<nat>, k: nat, b': Block<T>)
    requires MemoryOk(m, r, k, false)
    requires k + 1 < |r| && m.blocks[r[k + 1]].ProducerCount() == 0
    requires var b := m.blocks[r[k + 1]]; b' == b.(tail := Inc(b.tail, |b.data|))
    ensures MemoryOk(m.Set(r[k + 1], b'), r, k, true)
    ensures ProducerEffect(m, m.Set(r[k + 1], b'), r, k, r, k)
    ensures Holds(b', b'.data[m.blocks[r[k + 1]].tail])
  {
    PublishOne(m.blocks[r[k + 1]]);
    SetKeepsMemory(m, r, k, false, k + 1, b', true);
    SetIsProducerEffect(m, r, k, r[k + 1], b');
  }

  // ----- Producer -----------------------------------------------------------------------------

  ghost predicate ProducerReady<T>(m: Memory<T>, p: Producer<T>, r: seq<nat>, k: nat) {
    && MemoryOk(m, r, k, p.PAdvance?)
    && |r| + Unpublished(p) == |m.blocks|
    && ProducerTyped(m, p) && ProducerKnows(m, p, r, k)
  }

  ghost predicate ProducerDone<T>(m: Memory<T>, o: ProducerOutcome<T>, r: seq<nat>, k: nat, r': seq<nat>, k': nat) {
    ProducerReady(o.m, o.p, r', k') && ProducerEffect(m, o.m, r, k, r', k')
  }

  /** A load changes only what the producer knows. */
  lemma ProducerLoaded<T>(m: Memory<T>, p: Producer<T>, p': Producer<T>, r: seq<nat>, k: nat)
    requires ProducerReady(m, p, r, k)
    requires ProducerTyped(m, p') && ProducerKnows(m, p', r, k)
    requires Unpublished(p) == Unpublished(p') && !p.PAdvance? && !p'.PAdvance?
    ensures ProducerReady(m, p', r, k) && ProducerEffect(m, m, r, k, r, k)
  {
  }

  lemma ProducerLoadsTailBlock<T>(m: Memory<T>, p: Producer<T>, r: seq<nat>, k: nat)
    requires ProducerReady(m, p, r, k) && p.PLoadTailBlock?
    ensures ProducerDone(m, ProducerStep(m, p, []), r, k, r, k)
  {
    ProducerLoaded(m, p, ProducerStep(m, p, []).p, r, k);
  }

  lemma ProducerLoadsTail<T>(m: Memory<T>, p: Producer<T>, r: seq<nat>, k: nat)
    requires ProducerReady(m, p, r, k) && p.PLoadTail?
    ensures ProducerDone(m, ProducerStep(m, p, []), r, k, r, k)
  {
    var PLoadTail(e, alloc, tb, bf) := p;
    var b := m.blocks[tb];
    RoomLeft(b);
    var nt := Inc(b.tail, |b.data|);
    ProducerLoaded(m, p, if nt != bf then PWrite(e, tb, b.tail, nt) else PLoadFront(e, alloc, tb, b.tail, nt), r, k);
  }

  lemma ProducerLoadsNext<T>(m: Memory<T>, p: Producer<T>, r: seq<nat>, k: nat)
    requires ProducerReady(m, p, r, k) && p.PLoadNext?
    ensures ProducerDone(m, ProducerStep(m, p, []), r, k, r, k)
  {
    ProducerLoaded(m, p, ProducerStep(m, p, []).p, r, k);
  }

  /** The producer goes on to the next block only if that is not the front block. */
  lemma ProducerLoadsFrontBlock<T>(m: Memory<T>, p: Producer<T>, r: seq<nat>, k: nat)
    requires ProducerReady(m, p, r, k) && p.PLoadFrontBlock?
    ensures ProducerDone(m, ProducerStep(m, p, []), r, k, r, k)
  {
    var PLoadFrontBlock(e, alloc, tb, nx) := p;
    var p' := ProducerStep(m, p, []).p;
    assert nx != m.frontBlock ==> k + 1 < |r| by {
      assert m.blocks[r[k]].next == NextIn(r, k);
    }
    ProducerLoaded(m, p, p', r, k);
  }

  lemma ProducerReloadsNext<T>(m: Memory<T>, p: Producer<T>, r: seq<nat>, k: nat)
    requires ProducerReady(m, p, r, k) && p.PReloadNext?
    ensures ProducerDone(m, ProducerStep(m, p, []), r, k, r, k)
  {
    assert m.blocks[r[k]].next == NextIn(r, k);
    ProducerLoaded(m, p, ProducerStep(m, p, []).p, r, k);
  }

  lemma ProducerLoadsFront<T>(m: Memory<T>, p: Producer<T>, r: seq<nat>, k: nat)
    requires ProducerReady(m, p, r, k) && p.PLoadFront?
    ensures ProducerDone(m, ProducerStep(m, p, []), r, k, r, k)
  {
    var PLoadFront(e, alloc, tb, bt, nt) := p;
    var b := m.blocks[tb];
    var b' := b.(localFront := b.front);
    Refresh(b);
    RoomLeft(b');
    ProducerTouches(m, r, k, tb, b');
    if nt != b.front {
      assert ProducerStep(m, p, []) == POut(m.Set(tb, b'), PWrite(e, tb, bt, nt), Tau);
    } else {
      assert ProducerStep(m, p, []) == POut(m.Set(tb, b'), PLoadNext(e, alloc, tb), Tau);
    }
  }

  lemma ProducerLoadsNextFront<T>(m: Memory<T>, p: Producer<T>, r: seq<nat>, k: nat)
    requires ProducerReady(m, p, r, k) && p.PNextFront?
    ensures ProducerDone(m, ProducerStep(m, p, []), r, k, r, k)
  {
    var b := m.blocks[p.nb];
    Refresh(b);
    ProducerTouches(m, r, k, p.nb, b.(localFront := b.front));
  }

  /** The block ahead is empty, as the assert after the load of its tail says. */
  lemma ProducerLoadsNextTail<T>(m: Memory<T>, p: Producer<T>, r: seq<nat>, k: nat)
    requires ProducerReady(m, p, r, k) && p.PNextTail?
    ensures p.nf == m.blocks[p.nb].tail
    ensures ProducerDone(m, ProducerStep(m, p, []), r, k, r, k)
  {
    var b := m.blocks[p.nb];
    Refresh(b);
    assert b.Count() == 0;
    ProducerTouches(m, r, k, p.nb, b.(localFront := b.front));
  }

  lemma ProducerWrites<T>(m: Memory<T>, p: Producer<T>, r: seq<nat>, k: nat)
    requires ProducerReady(m, p, r, k) && p.PWrite?
    ensures ProducerDone(m, ProducerStep(m, p, []), r, k, r, k)
  {
    var b := m.blocks[p.tb];
    WriteFree(b, p.e);
    ProducerTouches(m, r, k, p.tb, b.(data := b.data[p.bt := p.e]));
  }

  lemma ProducerWritesNext<T>(m: Memory<T>, p: Producer<T>, r: seq<nat>, k: nat)
    requires ProducerReady(m, p, r, k) && p.PNextWrite?
    ensures ProducerDone(m, ProducerStep(m, p, []), r, k, r, k)
  {
    var b := m.blocks[p.nb];
    WriteFree(b, p.e);
    ProducerTouches(m, r, k, p.nb, b.(data := b.data[p.nt := p.e]));
  }

  lemma ProducerPublishes<T>(m: Memory<T>, p: Producer<T>, r: seq<nat>, k: nat)
    requires ProducerReady(m, p, r, k) && p.PPublish?
    ensures ProducerDone(m, ProducerStep(m, p, []), r, k, r, k)
  {
    var b := m.blocks[p.tb];
    PublishMemory(m, r, k, b.(tail := Inc(b.tail, |b.data|)));
  }

  lemma AheadKept<T>(m: Memory<T>, r: seq<nat>, k: nat, nb: nat, b': Block<T>)
    requires m.Typed() && Ring(m, r, k) && Ahead(m, r, k, nb) && b'.Typed() && b'.next < |m.blocks|
    ensures Ahead(m.Set(nb, b'), r, k, nb)
  {
    assert r[k] != r[k + 1];
  }

  lemma ProducerPublishesNext<T>(m: Memory<T>, p: Producer<T>, r: seq<nat>, k: nat)
    requires ProducerReady(m, p, r, k) && p.PNextPublish?
    ensures ProducerDone(m, ProducerStep(m, p, []), r, k, r, k)
  {
    var b := m.blocks[p.nb];
    var b' := b.(tail := Inc(b.tail, |b.data|));
    PublishAhead(m, r, k, b');
    AheadKept(m, r, k, p.nb, b');
    assert ProducerStep(m, p, []) == POut(m.Set(p.nb, b'), PAdvance(p.e, p.nb), Tau);
  }

  lemma ProducerAllocates<T>(m: Memory<T>, p: Producer<T>, memory: seq<T>, r: seq<nat>, k: nat)
    requires ProducerReady(m, p, r, k) && p.PAlloc?
    ensures ProducerDone(m, ProducerStep(m, p, memory), r, k, r, k)
  {
    if |memory| == m.NewBlockSize() {
      var m' := ProducerStep(m, p, memory).m;
      assert forall i | 0 <= i < |m.blocks| :: m'.blocks[i] == m.blocks[i];
      assert m'.blocks[|m.blocks|].Ordered();
      AppendKeepsMemory(m, m', r, k);
    } else {
      ProducerLoaded(m, p, PIdle, r, k);
    }
  }

  lemma AppendKeepsMemory<T>(m: Memory<T>, m': Memory<T>, r: seq<nat>, k: nat)
    requires MemoryOk(m, r, k, false) && m'.Typed()
    requires |m'.blocks| == |m.blocks| + 1 && m'.frontBlock == m.frontBlock && m'.tailBlock == m.tailBlock
    requires forall i | 0 <= i < |m.blocks| :: m'.blocks[i] == m.blocks[i]
    requires m'.blocks[|m.blocks|].Ordered()
    ensures MemoryOk(m', r, k, false)
    ensures ProducerEffect(m, m', r, k, r, k)
  {
    assert Ring(m', r, k);
    assert forall i {:trigger m'.blocks[r[i]].Full()} | 0 < i < k :: m.blocks[r[i]].Full();
    assert forall i {:trigger m'.blocks[r[i]].Count()} | 0 <= i < |r| ::
      m'.blocks[r[i]].Count() == m.blocks[r[i]].Count();
  }

  lemma ProducerLinks<T>(m: Memory<T>, p: Producer<T>, r: seq<nat>, k: nat)
    requires ProducerReady(m, p, r, k) && p.PLink?
    ensures ProducerDone(m, ProducerStep(m, p, []), r, k, r, k)
  {
    var b := m.blocks[p.nb];
    var b' := b.(next := m.blocks[p.tb].next);
    var m' := m.Set(p.nb, b');
    assert b.Ordered() && b'.Ordered();
    assert forall i | 0 <= i < |r| :: m'.blocks[r[i]] == m.blocks[r[i]];
    OutsideKeepsMemory(m, m', r, k);
    SetIsProducerEffect(m, r, k, p.nb, b');
  }

  lemma OutsideKeepsMemory<T>(m: Memory<T>, m': Memory<T>, r: seq<nat>, k: nat)
    requires MemoryOk(m, r, k, false) && m'.Typed()
    requires |m'.blocks| == |m.blocks| && m'.frontBlock == m.frontBlock && m'.tailBlock == m.tailBlock
    requires forall i | 0 <= i < |r| :: m'.blocks[r[i]] == m.blocks[r[i]]
    requires forall i {:trigger m'.blocks[i].Ordered()} | 0 <= i < |m.blocks| :: m'.blocks[i].Ordered()
    ensures MemoryOk(m', r, k, false)
  {
    assert Ring(m', r, k);
    assert forall i {:trigger m'.blocks[r[i]].Full()} | 0 < i < k :: m.blocks[r[i]].Full();
    assert forall i {:trigger m'.blocks[r[i]].Count()} | 0 <= i < |r| ::
      m'.blocks[r[i]].Count() == m.blocks[r[i]].Count();
  }

  /** The ring with nb put after place k. */
  function Spliced(r: seq<nat>, k: nat, nb: nat): seq<nat>
    requires k < |r|
  {
    r[..k + 1] + [nb] + r[k + 1..]
  }

  lemma ProducerSplices<T>(m: Memory<T>, p: Producer<T>, r: seq<nat>, k: nat)
    requires ProducerReady(m, p, r, k) && p.PSplice?
    ensures ProducerDone(m, ProducerStep(m, p, []), r, k, Spliced(r, k, p.nb), k)
  {
    var PSplice(e, tb, nb) := p;
    var r' := Spliced(r, k, nb);
    var b' := m.blocks[tb].(next := nb);
    var m' := m.Set(tb, b');
    assert m.blocks[tb].Ordered() && b'.Ordered();
    SpliceRing(m, m', r, k, nb);
    SpliceFills(m, m', r, k, nb);
  }

  lemma SpliceRing<T>(m: Memory<T>, m': Memory<T>, r: seq<nat>, k: nat, nb: nat)
    requires m.Typed() && Ring(m, r, k) && nb !in r && nb < |m.blocks|
    requires m.blocks[nb].next == m.blocks[m.tailBlock].next
    requires m' == m.Set(m.tailBlock, m.blocks[m.tailBlock].(next := nb))
    ensures Ring(m', Spliced(r, k, nb), k)
  {
    var r' := Spliced(r, k, nb);
    forall i | 0 <= i < |r'| ensures m'.blocks[r'[i]].next == NextIn(r', i) {
      if i < k {
        assert m.blocks[r[i]].next == NextIn(r, i);
      } else if i == k + 1 {
        assert m.blocks[r[k]].next == NextIn(r, k);
      } else if i > k + 1 {
        assert r'[i] == r[i - 1] && m.blocks[r[i - 1]].next == NextIn(r, i - 1);
      }
    }
  }

  lemma SpliceFills<T>(m: Memory<T>, m': Memory<T>, r: seq<nat>, k: nat, nb: nat)
    requires MemoryOk(m, r, k, false) && nb !in r && nb < |m.blocks|
    requires m' == m.Set(m.tailBlock, m.blocks[m.tailBlock].(next := nb))
    requires Ring(m', Spliced(r, k, nb), k)
    ensures MemoryOk(m', Spliced(r, k, nb), k, true)
  {
    var r' := Spliced(r, k, nb);
    forall i | 0 <= i < |m.blocks|
      ensures m'.blocks[i].Ordered() && m'.blocks[i].Count() == m.blocks[i].Count()
        && |m'.blocks[i].data| == |m.blocks[i].data|
    {
      assert m.blocks[i].Ordered();
    }
    forall i | 0 < i < k ensures m'.blocks[r'[i]].Full() {
      assert r'[i] == r[i] && m.blocks[r[i]].Full();
    }
    forall i | k + 1 < i < |r'| ensures m'.blocks[r'[i]].Count() == 0 {
      assert r'[i] == r[i - 1] && m.blocks[r[i - 1]].Count() == 0;
    }
  }

  lemma ProducerAdvances<T>(m: Memory<T>, p: Producer<T>, r: seq<nat>, k: nat)
    requires ProducerReady(m, p, r, k) && p.PAdvance?
    ensures k + 1 < |r| && ProducerDone(m, ProducerStep(m, p, []), r, k, r, k + 1)
  {
    var m' := ProducerStep(m, p, []).m;
    assert Ring(m', r, k + 1);
    forall i | 0 < i < k + 1 ensures m'.blocks[r[i]].Full() {
      assert i < k ==> m.blocks[r[i]].Full();
    }
    forall i | k + 1 < i < |r| ensures m'.blocks[r[i]].Count() == 0 {
      assert m.blocks[r[i]].Count() == 0;
    }
  }
}
