/** Every access of try_dequeue and peek keeps the invariant of the queue. */
module SpscConsumer {
  import opened SpscQueue
  import opened SpscInvariant
  import opened SpscSteps

  ghost predicate ConsumerReady<T>(m: Memory<T>, c: Consumer<T>, r: seq<nat>, k: nat, ahead: bool) {
    MemoryOk(m, r, k, ahead) && ConsumerTyped(m, c) && ConsumerKnows(m, c, r, k)
  }

  ghost predicate ConsumerDone<T>(
    m: Memory<T>, o: ConsumerOutcome<T>, r: seq<nat>, k: nat, ahead: bool, r': seq<nat>, k': nat)
  {
    ConsumerReady(o.m, o.c, r', k', ahead) && ConsumerEffect(m, o.m, r, k, r', k')
  }

  lemma ConsumerLoaded<T>(m: Memory<T>, c: Consumer<T>, c': Consumer<T>, r: seq<nat>, k: nat, ahead: bool)
    requires ConsumerReady(m, c, r, k, ahead)
    requires ConsumerTyped(m, c') && ConsumerKnows(m, c', r, k)
    ensures ConsumerReady(m, c', r, k, ahead) && ConsumerEffect(m, m, r, k, r, k)
  {
  }

  /** What the shadow copies tell about a block. */
  lemma Shadows<T>(b: Block<T>)
    requires b.Ordered()
    ensures b.front != b.localTail <==> 0 < b.ConsumerCount()
    ensures b.front != b.tail <==> 0 < b.Count()
    ensures b.ConsumerCount() <= b.Count()
    ensures b.localTail == b.tail ==> b.ConsumerCount() == b.Count()
  {
  }

  lemma ConsumerLoadsFrontBlock<T>(m: Memory<T>, c: Consumer<T>, r: seq<nat>, k: nat, ahead: bool)
    requires ConsumerReady(m, c, r, k, ahead) && (c.CLoadFrontBlock? || c.CReloadFrontBlock?)
    ensures ConsumerDone(m, ConsumerStep(m, c), r, k, ahead, r, k)
  {
    ConsumerLoaded(m, c, ConsumerStep(m, c).c, r, k, ahead);
  }

  lemma ConsumerLoadsFront<T>(m: Memory<T>, c: Consumer<T>, r: seq<nat>, k: nat, ahead: bool)
    requires ConsumerReady(m, c, r, k, ahead) && (c.CLoadFront? || c.CReloadFront?)
    ensures ConsumerDone(m, ConsumerStep(m, c), r, k, ahead, r, k)
  {
    assert m.blocks[c.fb].Ordered();
    Shadows(m.blocks[c.fb]);
    ConsumerLoaded(m, c, ConsumerStep(m, c).c, r, k, ahead);
  }

  /** Once the tail block has been seen elsewhere it stays elsewhere. */
  lemma ConsumerLoadsTailBlock<T>(m: Memory<T>, c: Consumer<T>, r: seq<nat>, k: nat, ahead: bool)
    requires ConsumerReady(m, c, r, k, ahead) && c.CLoadTailBlock?
    ensures ConsumerDone(m, ConsumerStep(m, c), r, k, ahead, r, k)
  {
    ConsumerLoaded(m, c, ConsumerStep(m, c).c, r, k, ahead);
  }

  lemma ConsumerLoadsNext<T>(m: Memory<T>, c: Consumer<T>, r: seq<nat>, k: nat, ahead: bool)
    requires ConsumerReady(m, c, r, k, ahead) && (c.CLoadNext? || c.CNextFront?)
    ensures ConsumerDone(m, ConsumerStep(m, c), r, k, ahead, r, k)
  {
    assert m.blocks[r[0]].next == NextIn(r, 0);
    ConsumerLoaded(m, c, ConsumerStep(m, c).c, r, k, ahead);
  }

  lemma ConsumerReads<T>(m: Memory<T>, c: Consumer<T>, r: seq<nat>, k: nat, ahead: bool)
    requires ConsumerReady(m, c, r, k, ahead) && c.CRead?
    ensures ConsumerDone(m, ConsumerStep(m, c), r, k, ahead, r, k)
  {
    ConsumerLoaded(m, c, ConsumerStep(m, c).c, r, k, ahead);
  }

  // ----- Refreshing localTail -----------------------------------------------------------------

  lemma RefreshMemory<T>(m: Memory<T>, r: seq<nat>, k: nat, ahead: bool, i: nat)
    requires MemoryOk(m, r, k, ahead) && i < |m.blocks|
    ensures var b := m.blocks[i];
      && b.(localTail := b.tail).Ordered()
      && MemoryOk(m.Set(i, b.(localTail := b.tail)), r, k, ahead)
      && ConsumerEffect(m, m.Set(i, b.(localTail := b.tail)), r, k, r, k)
  {
    var b := m.blocks[i];
    assert b.Ordered();
    Refresh(b);
    TouchOk(m, r, k, ahead, i, b.(localTail := b.tail));
  }

  lemma ConsumerLoadsTail<T>(m: Memory<T>, c: Consumer<T>, r: seq<nat>, k: nat, ahead: bool)
    requires ConsumerReady(m, c, r, k, ahead) && (c.CLoadTail? || c.CReloadTail?)
    ensures ConsumerDone(m, ConsumerStep(m, c), r, k, ahead, r, k)
  {
    var b := m.blocks[c.fb];
    RefreshMemory(m, r, k, ahead, c.fb);
    Shadows(b.(localTail := b.tail));
  }

  /** The block after the drained front block is not empty, as the assert says. */
  lemma SecondIsFilled<T>(m: Memory<T>, r: seq<nat>, k: nat, ahead: bool)
    requires MemoryOk(m, r, k, ahead) && 0 < k
    ensures m.blocks[r[1]].Ordered() && 0 < m.blocks[r[1]].Count()
  {
    if 1 < k {
      assert m.blocks[r[1]].Full();
    }
  }

  lemma ConsumerLoadsNextTail<T>(m: Memory<T>, c: Consumer<T>, r: seq<nat>, k: nat, ahead: bool)
    requires ConsumerReady(m, c, r, k, ahead) && c.CNextTail?
    ensures c.nf != m.blocks[c.nb].tail
    ensures ConsumerDone(m, ConsumerStep(m, c), r, k, ahead, r, k)
  {
    var b := m.blocks[c.nb];
    SecondIsFilled(m, r, k, ahead);
    Shadows(b);
    if c.peek {
      ConsumerLoaded(m, c, ConsumerStep(m, c).c, r, k, ahead);
    } else {
      RefreshMemory(m, r, k, ahead, c.nb);
      Shadows(b.(localTail := b.tail));
      assert r[0] != r[1];
    }
  }

  // ----- Moving on ----------------------------------------------------------------------------

  function Rotated(r: seq<nat>): seq<nat>
    requires 0 < |r|
  {
    r[1..] + [r[0]]
  }

  lemma RotateRing<T>(m: Memory<T>, m': Memory<T>, r: seq<nat>, k: nat)
    requires m.Typed() && Ring(m, r, k) && 0 < k
    requires m' == m.(frontBlock := r[1])
    ensures Ring(m', Rotated(r), k - 1)
  {
    var r' := Rotated(r);
    forall i | 0 <= i < |r'| ensures m'.blocks[r'[i]].next == NextIn(r', i) {
      if i + 1 < |r| {
        assert m.blocks[r[i + 1]].next == NextIn(r, i + 1);
      } else {
        assert m.blocks[r[0]].next == NextIn(r, 0);
      }
    }
  }

  /** Leaving the drained front block puts it behind the tail block. */
  lemma ConsumerAdvances<T>(m: Memory<T>, c: Consumer<T>, r: seq<nat>, k: nat, ahead: bool)
    requires ConsumerReady(m, c, r, k, ahead) && c.CAdvance?
    requires ahead ==> k + 1 < |r|
    ensures 0 < k && ConsumerDone(m, ConsumerStep(m, c), r, k, ahead, Rotated(r), k - 1)
  {
    var m' := m.(frontBlock := r[1]);
    var r' := Rotated(r);
    RotateRing(m, m', r, k);
    forall i | 0 < i < k - 1 ensures m'.blocks[r'[i]].Full() {
      assert r'[i] == r[i + 1] && m.blocks[r[i + 1]].Full();
    }
    forall i | k - 1 < i < |r'| && !(i == k && ahead) ensures m'.blocks[r'[i]].Count() == 0 {
      if i + 1 < |r| {
        assert r'[i] == r[i + 1] && m.blocks[r[i + 1]].Count() == 0;
      }
    }
  }

  lemma ConsumerPublishes<T>(m: Memory<T>, c: Consumer<T>, r: seq<nat>, k: nat, ahead: bool)
    requires ConsumerReady(m, c, r, k, ahead) && c.CPublish?
    ensures ConsumerDone(m, ConsumerStep(m, c), r, k, ahead, r, k)
  {
    var b := m.blocks[c.b];
    assert b.Ordered();
    ConsumeOne(b);
    SetKeepsMemory(m, r, k, ahead, 0, b.(front := Inc(b.front, |b.data|)), ahead);
  }
}
