/** How much the lock-free queue holds before an enqueue needs memory. */
module SpscCapacity {
  import opened PowersOfTwo
  import opened SpscQueue
  import opened SpscInvariant
  import opened SpscSteps
  import opened SpscConsumer
  import opened SpscRefinement
  import opened SpscSystem
  import opened SpscRuns
  import opened SpscCalls

  // ----- Block sizes --------------------------------------------------------------------------

  /** Existing blocks keep their size, and further ones are a power of two as large as the largest
      or its double. */
  ghost predicate SizesFrom<T>(m: Memory<T>, m': Memory<T>) {
    && |m.blocks| <= |m'.blocks| && m'.maxBlock == m.maxBlock
    && (forall i | 0 <= i < |m.blocks| :: |m'.blocks[i].data| == |m.blocks[i].data|)
    && (forall i | |m.blocks| <= i < |m'.blocks| :: |m'.blocks[i].data| == m.NewBlockSize())
    && (m'.largest == m.largest || m'.largest == m.NewBlockSize())
  }

  lemma ProducerSizes<T>(m: Memory<T>, p: Producer<T>, memory: seq<T>)
    requires m.Typed() && ProducerTyped(m, p)
    ensures SizesFrom(m, ProducerStep(m, p, memory).m)
  {
  }

  lemma ConsumerSizes<T>(m: Memory<T>, c: Consumer<T>)
    requires m.Typed() && ConsumerTyped(m, c)
    ensures SizesFrom(m, ConsumerStep(m, c).m)
  {
  }

  lemma StepSizes<T>(s: State<T>, a: Action<T>)
    requires s.Inv()
    ensures s.Typed() && SizesFrom(s.m, Step(s, a).s.m)
  {
    InvIsTyped(s);
    match a {
      case Produce(memory) => ProducerSizes(s.m, s.p, memory);
      case Consume => ConsumerSizes(s.m, s.c);
      case _ =>
    }
  }

  ghost predicate PowerSizes<T>(m: Memory<T>) {
    IsPow2(m.largest) && forall i | 0 <= i < |m.blocks| :: IsPow2(|m.blocks[i].data|)
  }

  lemma SizesStayPowers<T>(m: Memory<T>, m': Memory<T>)
    requires PowerSizes(m) && SizesFrom(m, m')
    ensures PowerSizes(m')
  {
    var e: nat :| m.largest == Pow2(e);
    assert m.largest * 2 == Pow2(e + 1);
    forall i | 0 <= i < |m'.blocks| ensures IsPow2(|m'.blocks[i].data|) {
      if i < |m.blocks| {
        assert IsPow2(|m.blocks[i].data|);
      }
    }
  }

  lemma StepSizesAt<T>(run: Run<T>, j: nat)
    requires run.Valid() && 0 < j <= |run.schedule|
    ensures SizesFrom(run.states[j - 1].m, run.states[j].m)
  {
    StateOf(run, j - 1);
    assert run.Linked(j - 1);
    StepSizes(run.states[j - 1], run.schedule[j - 1]);
  }

  /** In every reachable state all block sizes are powers of two, so that the masked increments of
      the code are the circular increments Inc (MaskedIncrement). */
  lemma {:induction false} SizesArePowers<T>(run: Run<T>, maxSize: nat, maxBlock: nat, j: nat)
    requires run.Valid() && Start(run.states[0], maxSize, maxBlock) && j <= |run.schedule|
    ensures PowerSizes(run.states[j].m)
  {
    if j == 0 {
      StartSizes(run.states[0], maxSize, maxBlock);
    } else {
      SizesArePowers(run, maxSize, maxBlock, j - 1);
      StepSizesAt(run, j);
      SizesStayPowers(run.states[j - 1].m, run.states[j].m);
    }
  }

  ghost predicate Uniform<T>(m: Memory<T>, size: nat) {
    forall i | 0 <= i < |m.blocks| :: |m.blocks[i].data| == size
  }

  /** What fits into n blocks of one size wherever the front is: one slot of each block stays free
      and, of several blocks, one may be in use by the consumer only. */
  function Room(n: nat, size: nat): int
    requires 1 <= size
  {
    if n == 1 then size - 1 else (n - 1) * (size - 1)
  }

  lemma StartSizes<T>(s: State<T>, maxSize: nat, maxBlock: nat)
    requires Start(s, maxSize, maxBlock)
    ensures PowerSizes(s.m) && Uniform(s.m, s.m.largest) && 2 <= s.m.largest
    ensures Room(|s.m.blocks|, s.m.largest) >= maxSize
  {
    var m := s.m;
    var size: nat :| SizedFor(m, maxSize, maxBlock, size);
    if size > maxBlock * 2 {
      CountIsPositive(maxSize, maxBlock);
    }
  }

  // ----- A failing try_enqueue ----------------------------------------------------------------

  /** The block after the tail block is the front block: no free block ahead. */
  predicate Closed<T>(m: Memory<T>)
    requires m.Typed()
  {
    m.blocks[m.tailBlock].next == m.frontBlock
  }

  lemma {:induction false} FullLength<T>(bs: seq<Block<T>>, q: seq<nat>, size: nat)
    requires 2 <= size
    requires forall i | 0 <= i < |q| :: q[i] < |bs| && bs[q[i]].Typed()
    requires forall i | 0 <= i < |q| :: |bs[q[i]].data| == size && bs[q[i]].Full()
    ensures |Flat(bs, q)| == |q| * (size - 1)
  {
    if q != [] {
      FullLength(bs, q[1..], size);
      assert bs[q[0]].Full() && |bs[q[0]].Contents()| == size - 1;
      OneMore(|q[1..]|, size - 1);
    }
  }

  lemma OneMore(n: nat, d: nat)
    ensures (n + 1) * d == d + n * d
  {
  }

  /** With no free block ahead of a full tail block, all blocks but the front one are full. */
  lemma ClosedIsFull<T>(s: State<T>, r: seq<nat>, k: nat, size: nat)
    requires s.InvAt(r, k) && Closed(s.m) && s.m.blocks[s.m.tailBlock].Full()
    requires Uniform(s.m, size) && 2 <= size && Unpublished(s.p) == 0
    ensures |s.m.Queue()| >= Room(|s.m.blocks|, size)
  {
    var m := s.m;
    assert m.blocks[r[k]].next == NextIn(r, k);
    assert k + 1 == |r| == |m.blocks|;
    QueueIsFlat(m, r, k);
    assert r[..k + 1] == r;
    HeadOfFlat(m.blocks, r);
    forall i | 0 <= i < |r[1..]| ensures |m.blocks[r[1..][i]].data| == size && m.blocks[r[1..][i]].Full() {
      if i + 1 < k {
        assert m.blocks[r[i + 1]].Full();
      }
    }
    FullLength(m.blocks, r[1..], size);
  }

  /** The ring is closed after a step only if it was before: the consumer only opens it. */
  lemma ClosedBefore<T>(s: State<T>, a: Action<T>)
    requires s.Inv() && (s.p.PLoadNext? || s.p.PLoadFrontBlock?)
    ensures s.Typed()
    ensures Step(s, a).s.m.Typed() && (Closed(Step(s, a).s.m) ==> Closed(s.m))
  {
    var r, k: nat :| s.InvAt(r, k);
    assert s.m.blocks[r[k]].next == NextIn(r, k);
    if a.Consume? {
      ConsumeKeeps(s, r, k);
    }
  }

  ghost predicate LooksAhead<T>(p: Producer<T>) {
    p.PLoadNext? || p.PLoadFrontBlock?
  }

  /** A full tail block and no free one ahead. */
  ghost predicate Stuck<T>(s: State<T>) {
    s.Typed() && s.p.PLoadNext? && Closed(s.m) && s.m.blocks[s.m.tailBlock].Full()
  }

  /** The access after which the producer looks for a free block ahead. */
  lemma ReachesFullTail<T>(s: State<T>, a: Action<T>)
    requires s.Inv()
    ensures s.Typed() && Step(s, a).s.Typed()
    ensures var t := Step(s, a).s;
      LooksAhead(t.p) && !LooksAhead(s.p) ==> !s.p.PIdle? && (Closed(t.m) ==> Stuck(t))
  {
    var r, k: nat :| s.InvAt(r, k);
    StepRefines(s, a);
    if a.Produce? && s.p.PLoadFront? {
      ProduceKeeps(s, a.memory, r, k);
      var t := Step(s, a).s;
      assert t.m.blocks[s.p.tb].Ordered();
      RoomLeft(t.m.blocks[s.p.tb]);
    }
  }

  /** The ring of a well-formed state is closed. */
  ghost predicate ClosedIn<T>(s: State<T>) {
    s.Typed() && Closed(s.m)
  }

  lemma StepToLookAhead<T>(run: Run<T>, j: nat)
    requires run.Valid() && 0 < j <= |run.schedule| && LooksAhead(run.states[j].p)
    ensures var before, after := run.states[j - 1], run.states[j];
      && !before.p.PIdle?
      && (ClosedIn(after) ==> if LooksAhead(before.p) then ClosedIn(before) else Stuck(after))
  {
    StateOf(run, j - 1);
    assert run.Linked(j - 1);
    var before := run.states[j - 1];
    if LooksAhead(before.p) {
      ClosedBefore(before, run.schedule[j - 1]);
    } else {
      ReachesFullTail(before, run.schedule[j - 1]);
    }
  }

  lemma FullWitness<T>(run: Run<T>, n: nat) returns (i: nat)
    requires run.Valid() && run.states[0].p.PIdle? && n <= |run.schedule|
    requires LooksAhead(run.states[n].p) && ClosedIn(run.states[n])
    ensures i <= n && Stuck(run.states[i])
    ensures forall j | i <= j <= n :: !run.states[j].p.PIdle?
  {
    var at := seq(n + 1, j requires 0 <= j <= n => LooksAhead(run.states[j].p));
    var busy := seq(n + 1, j requires 0 <= j <= n => !run.states[j].p.PIdle?);
    var open := seq(n + 1, j requires 0 <= j <= n => ClosedIn(run.states[j]));
    var seen := seq(n + 1, j requires 0 <= j <= n => Stuck(run.states[j]));
    forall j | 0 < j <= n && at[j]
      ensures busy[j - 1] && busy[j] && (open[j] ==> if at[j - 1] then open[j - 1] else seen[j])
    {
      StepToLookAhead(run, j);
    }
    i := Began(at, busy, open, seen, n);
    assert forall j {:trigger run.states[j]} | i <= j <= n :: busy[j] == !run.states[j].p.PIdle?;
  }

  lemma ReportsNoRoom<T>(s: State<T>, a: Action<T>)
    requires s.Inv()
    ensures s.Typed()
    ensures Step(s, a).ev == NoRoom ==> s.p.PLoadFrontBlock? && Closed(s.m) && |Step(s, a).s.m.blocks| == |s.m.blocks|
  {
    var r, k: nat :| s.InvAt(r, k);
  }

  lemma {:induction false} BlocksGrow<T>(run: Run<T>, i: nat, n: nat)
    requires run.Valid() && i <= n <= |run.schedule|
    ensures |run.states[i].m.blocks| <= |run.states[n].m.blocks|
  {
    if i < n {
      StepSizesAt(run, n);
      BlocksGrow(run, i, n - 1);
    }
  }

  /** While no block has been added, all blocks have the constructor's size. */
  lemma {:induction false} StaysUniform<T>(run: Run<T>, size: nat, j: nat)
    requires run.Valid() && j <= |run.schedule| && Uniform(run.states[0].m, size)
    requires |run.states[j].m.blocks| <= |run.states[0].m.blocks|
    ensures Uniform(run.states[j].m, size) && |run.states[j].m.blocks| == |run.states[0].m.blocks|
  {
    BlocksGrow(run, 0, j);
    if j > 0 {
      BlocksGrow(run, 0, j - 1);
      StepSizesAt(run, j);
      StaysUniform(run, size, j - 1);
    }
  }

  lemma StuckIsFull<T>(s: State<T>, size: nat)
    requires s.Inv() && Stuck(s) && Uniform(s.m, size) && 2 <= size
    ensures |s.m.Queue()| >= Room(|s.m.blocks|, size)
  {
    var r, k: nat :| s.InvAt(r, k);
    ClosedIsFull(s, r, k, size);
  }

  lemma StepToNoRoom<T>(run: Run<T>, n: nat)
    requires run.Valid() && n < |run.schedule| && run.evs[n] == NoRoom
    ensures LooksAhead(run.states[n].p) && ClosedIn(run.states[n])
  {
    StateOf(run, n);
    assert run.Linked(n);
    ReportsNoRoom(run.states[n], run.schedule[n]);
  }

  /** A try_enqueue that fails before any block has been added to the constructor's found, at some
      instant i of the call, at least maxSize elements in the queue. */
  lemma FullOnlyAtCapacity<T>(run: Run<T>, maxSize: nat, maxBlock: nat, n: nat) returns (i: nat)
    requires run.Valid() && Start(run.states[0], maxSize, maxBlock)
    requires n < |run.schedule| && run.evs[n] == NoRoom
    requires |run.states[n].m.blocks| == |run.states[0].m.blocks|
    ensures i <= n && |QueueOf(run.states[i])| >= maxSize
    ensures forall j | i <= j <= n :: !run.states[j].p.PIdle?
  {
    StepToNoRoom(run, n);
    i := FullWitness(run, n);
    BlocksGrow(run, i, n);
    StartSizes(run.states[0], maxSize, maxBlock);
    StaysUniform(run, run.states[0].m.largest, i);
    StateOf(run, i);
    StuckIsFull(run.states[i], run.states[0].m.largest);
  }
}
