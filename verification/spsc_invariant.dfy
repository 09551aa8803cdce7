/** The invariant of the lock-free queue. */
module SpscInvariant {
  import opened SpscQueue

  function NextIn(r: seq<nat>, i: nat): nat
    requires i < |r|
  {
    if i + 1 == |r| then r[0] else r[i + 1]
  }

  /** `r` lists the linked blocks in `next` order from the front block; r[k] is the tail block. */
  ghost predicate Ring<T>(m: Memory<T>, r: seq<nat>, k: nat) {
    && k < |r|
    && (forall i | 0 <= i < |r| :: r[i] < |m.blocks|)
    && (forall i, j | 0 <= i < j < |r| :: r[i] != r[j])
    && r[0] == m.frontBlock && r[k] == m.tailBlock
    && (forall i {:trigger NextIn(r, i)} | 0 <= i < |r| :: m.blocks[r[i]].next == NextIn(r, i))
  }

  /** Blocks strictly between front and tail block are full, the tail block is not empty unless it
      is the front block, and those behind it are empty, but for the one just filled (`ahead`)
      that the tail is about to move to. */
  ghost predicate Filled<T>(m: Memory<T>, r: seq<nat>, k: nat, ahead: bool)
    requires m.Typed() && Ring(m, r, k)
  {
    && (forall i {:trigger m.blocks[r[i]].Full()} | 0 < i < k :: m.blocks[r[i]].Full())
    && (0 < k ==> 0 < m.blocks[r[k]].Count())
    && (forall i {:trigger m.blocks[r[i]].Count()} | k < i < |r| && !(i == k + 1 && ahead) ::
      m.blocks[r[i]].Count() == 0)
  }

  ghost predicate MemoryOk<T>(m: Memory<T>, r: seq<nat>, k: nat, ahead: bool) {
    && m.Typed()
    && (forall i {:trigger m.blocks[i].Ordered()} | 0 <= i < |m.blocks| :: m.blocks[i].Ordered())
    && Ring(m, r, k)
    && Filled(m, r, k, ahead)
  }

  /** The producer found the tail block full, and it still is unless the consumer is in it. */
  ghost predicate LeftFull<T>(m: Memory<T>, k: nat, tb: nat)
    requires m.Typed()
  {
    tb == m.tailBlock && (0 < k ==> m.blocks[tb].Full())
  }

  /** nb is the block after the tail block and not the front block. */
  ghost predicate Ahead<T>(m: Memory<T>, r: seq<nat>, k: nat, nb: nat)
    requires m.Typed()
  {
    LeftFull(m, k, m.tailBlock) && k + 1 < |r| && nb == r[k + 1] && nb < |m.blocks|
  }

  /** The block holds just e. */
  ghost predicate Holds<T>(b: Block<T>, e: T)
    requires b.Typed()
  {
    b.Count() == 1 && b.data[b.front] == e
  }

  /** nb is allocated and filled with e but not yet linked. */
  ghost predicate Unlinked<T>(m: Memory<T>, r: seq<nat>, nb: nat, e: T)
    requires m.Typed()
  {
    nb !in r && nb < |m.blocks| && Holds(m.blocks[nb], e)
  }

  /** What a producer in the middle of a call knows. */
  ghost predicate ProducerKnows<T>(m: Memory<T>, p: Producer<T>, r: seq<nat>, k: nat)
    requires m.Typed() && ProducerTyped(m, p)
  {
    var bs := m.blocks;
    match p
    case PIdle => true
    case PLoadTailBlock(_, _) => true
    case PLoadTail(_, _, tb, bf) => tb == m.tailBlock && bf == bs[tb].localFront
    case PLoadFront(_, _, tb, bt, nt) =>
      tb == m.tailBlock && bt == bs[tb].tail && nt == Inc(bt, |bs[tb].data|)
    case PWrite(_, tb, bt, nt) =>
      && tb == m.tailBlock && bt == bs[tb].tail && nt == Inc(bt, |bs[tb].data|)
      && bs[tb].ProducerCount() < |bs[tb].data| - 1
    case PPublish(e, tb, nt) =>
      && tb == m.tailBlock && nt == Inc(bs[tb].tail, |bs[tb].data|) && bs[tb].data[bs[tb].tail] == e
      && bs[tb].ProducerCount() < |bs[tb].data| - 1
    case PLoadNext(_, _, tb) => LeftFull(m, k, tb)
    case PLoadFrontBlock(_, _, tb, nx) => LeftFull(m, k, tb) && nx == bs[tb].next
    case PReloadNext(_, tb) => LeftFull(m, k, tb) && k + 1 < |r|
    case PNextFront(_, nb) => Ahead(m, r, k, nb)
    case PNextTail(_, nb, nf) => Ahead(m, r, k, nb) && nf == bs[nb].front == bs[nb].localFront
    case PNextWrite(_, nb, nt) =>
      Ahead(m, r, k, nb) && nt == bs[nb].tail == bs[nb].front == bs[nb].localFront
    case PNextPublish(e, nb, nt) =>
      Ahead(m, r, k, nb) && nt == bs[nb].tail == bs[nb].front == bs[nb].localFront && bs[nb].data[nt] == e
    case PAlloc(_, tb) => LeftFull(m, k, tb)
    case PLink(e, tb, nb) => LeftFull(m, k, tb) && Unlinked(m, r, nb, e)
    case PSplice(e, tb, nb) =>
      LeftFull(m, k, tb) && Unlinked(m, r, nb, e) && bs[nb].next == bs[tb].next
    case PAdvance(e, nb) => Ahead(m, r, k, nb) && Holds(bs[nb], e)
  }

  /** The consumer found the front block r[0] drained for good: the tail block is another one. */
  ghost predicate Drained<T>(m: Memory<T>, r: seq<nat>, k: nat)
    requires m.Typed()
  {
    0 < k < |r| && m.blocks[m.frontBlock].Count() == 0
  }

  /** What a consumer in the middle of a call knows. */
  ghost predicate ConsumerKnows<T>(m: Memory<T>, c: Consumer<T>, r: seq<nat>, k: nat)
    requires m.Typed() && ConsumerTyped(m, c)
  {
    var bs := m.blocks;
    match c
    case CIdle => true
    case CLoadFrontBlock(_) => true
    case CLoadFront(_, fb, bt) => fb == m.frontBlock && bt == bs[fb].localTail
    case CLoadTail(_, fb, bf) => fb == m.frontBlock && bf == bs[fb].front
    case CLoadTailBlock(_, fb) => fb == m.frontBlock
    case CReloadFrontBlock(_) => 0 < k
    case CReloadTail(_, fb) => 0 < k && fb == m.frontBlock
    case CReloadFront(_, fb, bt) => 0 < k && fb == m.frontBlock && bt == bs[fb].localTail == bs[fb].tail
    case CLoadNext(_, fb) => fb == m.frontBlock && Drained(m, r, k)
    case CNextFront(_, nb) => Drained(m, r, k) && nb == r[1]
    case CNextTail(_, nb, nf) => Drained(m, r, k) && nb == r[1] && nf == bs[nb].front
    case CAdvance(nb, nf) =>
      Drained(m, r, k) && nb == r[1] && nf == bs[nb].front && 0 < bs[nb].ConsumerCount()
    case CRead(peek, b, i) =>
      && i == bs[b].front
      && ((b == m.frontBlock && 0 < bs[b].ConsumerCount()) || (peek && Drained(m, r, k) && b == r[1]))
    case CPublish(x, b, i) =>
      b == m.frontBlock && i == bs[b].front && 0 < bs[b].ConsumerCount() && bs[b].data[i] == x
  }

  function Unpublished<T>(p: Producer<T>): nat {
    if p.PLink? || p.PSplice? then 1 else 0
  }

  ghost predicate InvAt<T>(m: Memory<T>, p: Producer<T>, c: Consumer<T>, r: seq<nat>, k: nat) {
    && MemoryOk(m, r, k, p.PAdvance?)
    && |r| + Unpublished(p) == |m.blocks|
    && ProducerTyped(m, p) && ProducerKnows(m, p, r, k)
    && ConsumerTyped(m, c) && ConsumerKnows(m, c, r, k)
  }

  // ----- Contents along the ring --------------------------------------------------------------

  ghost function Flat<T>(bs: seq<Block<T>>, r: seq<nat>): seq<T>
    requires forall i | 0 <= i < |r| :: r[i] < |bs| && bs[r[i]].Typed()
  {
    if r == [] then [] else bs[r[0]].Contents() + Flat(bs, r[1..])
  }

  lemma {:induction false} FlatSame<T>(bs: seq<Block<T>>, bs': seq<Block<T>>, r: seq<nat>)
    requires forall i | 0 <= i < |r| :: r[i] < |bs| && bs[r[i]].Typed()
    requires forall i | 0 <= i < |r| :: r[i] < |bs'| && bs'[r[i]].Typed()
    requires forall i | 0 <= i < |r| :: bs'[r[i]].Contents() == bs[r[i]].Contents()
    ensures Flat(bs', r) == Flat(bs, r)
  {
    if r != [] {
      assert bs'[r[0]].Contents() == bs[r[0]].Contents();
      FlatSame(bs, bs', r[1..]);
    }
  }

  lemma {:induction false} FlatConcat<T>(bs: seq<Block<T>>, r: seq<nat>, q: seq<nat>)
    requires forall i | 0 <= i < |r| :: r[i] < |bs| && bs[r[i]].Typed()
    requires forall i | 0 <= i < |q| :: q[i] < |bs| && bs[q[i]].Typed()
    ensures forall i | 0 <= i < |r + q| :: (r + q)[i] < |bs| && bs[(r + q)[i]].Typed()
    ensures Flat(bs, r + q) == Flat(bs, r) + Flat(bs, q)
  {
    if r == [] {
      assert r + q == q;
    } else {
      FlatConcat(bs, r[1..], q);
      assert (r + q)[1..] == r[1..] + q;
    }
  }

  /** `q` is what one meets walking from q[0] to the tail block. */
  ghost predicate Path<T>(m: Memory<T>, q: seq<nat>) {
    && 0 < |q| && q[|q| - 1] == m.tailBlock
    && (forall i | 0 <= i < |q| :: q[i] < |m.blocks|)
    && (forall i | 0 <= i < |q| - 1 :: q[i] != m.tailBlock && m.blocks[q[i]].next == q[i + 1])
  }

  lemma {:induction false} WalkIsFlat<T>(m: Memory<T>, q: seq<nat>, fuel: nat)
    requires m.Typed() && Path(m, q) && |q| <= fuel + 1
    ensures m.Walk(q[0], fuel) == Flat(m.blocks, q)
  {
    if |q| == 1 {
      assert q[1..] == [];
    } else {
      WalkIsFlat(m, q[1..], fuel - 1);
    }
  }

  /** The abstract queue is the contents of the blocks from front to tail. */
  lemma QueueIsFlat<T>(m: Memory<T>, r: seq<nat>, k: nat)
    requires m.Typed() && Ring(m, r, k) && |r| <= |m.blocks|
    ensures m.Queue() == Flat(m.blocks, r[..k + 1])
  {
    forall i | 0 <= i < k ensures r[i] != m.tailBlock && m.blocks[r[i]].next == r[i + 1] {
      assert NextIn(r, i) == r[i + 1];
    }
    WalkIsFlat(m, r[..k + 1], |m.blocks|);
  }
}
