/** What single calls of the lock-free queue promise, under every interleaving. */
module SpscCalls {
  import opened PowersOfTwo
  import opened SpscQueue
  import opened SpscInvariant
  import opened SpscSteps
  import opened SpscConsumer
  import opened SpscRefinement
  import opened SpscSystem
  import opened SpscRuns

  /** Going back in a run from place n, where `at` holds, to the place where `at` began: as long as
      `open` holds at the end, it held all the way, and `seen` holds at the beginning. */
  lemma {:induction false} Began(at: seq<bool>, busy: seq<bool>, open: seq<bool>, seen: seq<bool>, n: nat)
    returns (i: nat)
    requires n < |at| == |busy| == |open| == |seen| && !at[0] && at[n]
    requires forall j | 0 < j <= n && at[j] ::
      busy[j - 1] && busy[j] && (open[j] ==> if at[j - 1] then open[j - 1] else seen[j])
    ensures i <= n && (open[n] ==> seen[i])
    ensures forall j | i <= j <= n :: busy[j]
  {
    if at[n - 1] {
      i := Began(at, busy, open, seen, n - 1);
    } else {
      i := n;
    }
  }

  // ----- A failing try_dequeue ----------------------------------------------------------------

  /** The tail block does not come back to the front block while the consumer stays in it. */
  lemma TailStaysAway<T>(s: State<T>, a: Action<T>)
    requires s.Inv() && !a.Consume?
    ensures s.Typed()
    ensures var m' := Step(s, a).s.m; m'.frontBlock == m'.tailBlock ==> s.m.frontBlock == s.m.tailBlock
  {
    var r, k: nat :| s.InvAt(r, k);
    if a.Produce? {
      ProduceKeeps(s, a.memory, r, k);
    }
  }

  lemma AloneAndEmpty<T>(m: Memory<T>)
    requires m.Typed() && m.frontBlock == m.tailBlock && m.blocks[m.frontBlock].Count() == 0
    ensures m.Queue() == []
  {
    assert m.Queue() == m.blocks[m.frontBlock].Contents();
  }

  /** The access after which the consumer is about to look at the tail block. */
  lemma ReachesTailBlockLoad<T>(s: State<T>, a: Action<T>)
    requires s.Inv()
    ensures s.Typed()
    ensures var t := Step(s, a).s; t.c.CLoadTailBlock? && !s.c.CLoadTailBlock? ==>
      !s.c.CIdle? && (t.m.frontBlock == t.m.tailBlock ==> t.m.Typed() && t.m.Queue() == [])
    ensures var t := Step(s, a).s; t.c.CLoadTailBlock? && s.c.CLoadTailBlock? ==> !a.Consume?
  {
    var r, k: nat :| s.InvAt(r, k);
    if a.Consume? && s.c.CLoadTail? {
      var m' := ConsumerStep(s.m, s.c).m;
      if m'.frontBlock == m'.tailBlock && s.c.bf == s.m.blocks[s.c.fb].tail {
        AloneAndEmpty(m');
      }
    }
  }

  lemma ReportsEmpty<T>(s: State<T>, a: Action<T>)
    requires s.Inv()
    ensures s.Typed()
    ensures Step(s, a).ev == FoundEmpty ==> s.c.CLoadTailBlock? && s.m.frontBlock == s.m.tailBlock
  {
    var r, k: nat :| s.InvAt(r, k);
  }

  ghost predicate Empty<T>(s: State<T>) {
    s.Typed() && s.m.Queue() == []
  }

  lemma StepToLoad<T>(run: Run<T>, j: nat)
    requires run.Valid() && 0 < j <= |run.schedule| && run.states[j].c.CLoadTailBlock?
    ensures var before, after := run.states[j - 1], run.states[j];
      && !before.c.CIdle?
      && (after.m.frontBlock == after.m.tailBlock ==>
            if before.c.CLoadTailBlock? then before.m.frontBlock == before.m.tailBlock else Empty(after))
  {
    StateOf(run, j - 1);
    assert run.Linked(j - 1);
    var before := run.states[j - 1];
    ReachesTailBlockLoad(before, run.schedule[j - 1]);
    StateOf(run, j);
    if before.c.CLoadTailBlock? {
      TailStaysAway(before, run.schedule[j - 1]);
    }
  }

  lemma StepToEmpty<T>(run: Run<T>, n: nat)
    requires run.Valid() && n < |run.schedule| && run.evs[n] == FoundEmpty
    ensures var s := run.states[n]; s.c.CLoadTailBlock? && s.m.frontBlock == s.m.tailBlock
  {
    StateOf(run, n);
    assert run.Linked(n);
    ReportsEmpty(run.states[n], run.schedule[n]);
  }

  /** try_dequeue and peek report an empty queue only if it was empty at some instant i of the
      call: the consumer is inside the call from then until it returns. */
  lemma FoundEmptyWasEmpty<T>(run: Run<T>, n: nat) returns (i: nat)
    requires run.Valid() && run.states[0].c.CIdle? && n < |run.schedule| && run.evs[n] == FoundEmpty
    ensures i <= n && Empty(run.states[i])
    ensures forall j | i <= j <= n :: !run.states[j].c.CIdle?
  {
    var at := seq(n + 1, j requires 0 <= j <= n => run.states[j].c.CLoadTailBlock?);
    var busy := seq(n + 1, j requires 0 <= j <= n => !run.states[j].c.CIdle?);
    var open := seq(n + 1, j requires 0 <= j <= n => run.states[j].m.frontBlock == run.states[j].m.tailBlock);
    var seen := seq(n + 1, j requires 0 <= j <= n => Empty(run.states[j]));
    forall j | 0 < j <= n && at[j]
      ensures busy[j - 1] && busy[j] && (open[j] ==> if at[j - 1] then open[j - 1] else seen[j])
    {
      StepToLoad(run, j);
    }
    StepToEmpty(run, n);
    i := Began(at, busy, open, seen, n);
    assert forall j {:trigger run.states[j]} | i <= j <= n :: busy[j] == !run.states[j].c.CIdle?;
  }

  // ----- Every call returns -------------------------------------------------------------------

  /** An upper bound on the accesses a call of the producer still makes. */
  function ProducerRank<T>(p: Producer<T>): nat {
    match p
    case PIdle => 0
    case PLoadTailBlock(_, _) => 11
    case PLoadTail(_, _, _, _) => 10
    case PLoadFront(_, _, _, _, _) => 9
    case PWrite(_, _, _, _) => 2
    case PPublish(_, _, _) => 1
    case PLoadNext(_, _, _) => 8
    case PLoadFrontBlock(_, _, _, _) => 7
    case PReloadNext(_, _) => 6
    case PNextFront(_, _) => 5
    case PNextTail(_, _, _) => 4
    case PNextWrite(_, _, _) => 3
    case PNextPublish(_, _, _) => 2
    case PAlloc(_, _) => 4
    case PLink(_, _, _) => 3
    case PSplice(_, _, _) => 2
    case PAdvance(_, _) => 1
  }

  function ConsumerRank<T>(c: Consumer<T>): nat {
    match c
    case CIdle => 0
    case CLoadFrontBlock(_) => 13
    case CLoadFront(_, _, _) => 12
    case CLoadTail(_, _, _) => 11
    case CLoadTailBlock(_, _) => 10
    case CReloadFrontBlock(_) => 9
    case CReloadTail(_, _) => 8
    case CReloadFront(_, _, _) => 7
    case CLoadNext(_, _) => 6
    case CNextFront(_, _) => 5
    case CNextTail(_, _, _) => 4
    case CAdvance(_, _) => 3
    case CRead(_, _, _) => 2
    case CPublish(_, _, _) => 1
  }

  function Produces<T>(schedule: seq<Action<T>>): nat {
    if schedule == [] then 0
    else var n := |schedule| - 1; Produces(schedule[..n]) + if schedule[n].Produce? then 1 else 0
  }

  function Consumes<T>(schedule: seq<Action<T>>): nat {
    if schedule == [] then 0
    else var n := |schedule| - 1; Consumes(schedule[..n]) + if schedule[n].Consume? then 1 else 0
  }

  lemma ProducerRankFalls<T>(run: Run<T>, j: nat)
    requires run.Valid() && 0 < j <= |run.schedule| && !run.states[j - 1].p.PIdle?
    ensures ProducerRank(run.states[j].p) + (if run.schedule[j - 1].Produce? then 1 else 0)
         <= ProducerRank(run.states[j - 1].p)
  {
    assert run.Linked(j - 1);
  }

  lemma ConsumerRankFalls<T>(run: Run<T>, j: nat)
    requires run.Valid() && 0 < j <= |run.schedule| && !run.states[j - 1].c.CIdle?
    ensures ConsumerRank(run.states[j].c) + (if run.schedule[j - 1].Consume? then 1 else 0)
         <= ConsumerRank(run.states[j - 1].c)
  {
    assert run.Linked(j - 1);
  }

  /** Wait-freedom of the producer: a call returns within 11 accesses of its own, whatever the
      consumer does in between. */
  lemma {:induction false} EnqueueReturns<T>(run: Run<T>, n: nat)
    requires run.Valid() && n <= |run.schedule|
    requires forall j | 0 <= j < n :: !run.states[j].p.PIdle?
    ensures Produces(run.schedule[..n]) + ProducerRank(run.states[n].p) <= ProducerRank(run.states[0].p) <= 11
  {
    if n > 0 {
      EnqueueReturns(run, n - 1);
      ProducerRankFalls(run, n);
      assert run.schedule[..n][..n - 1] == run.schedule[..n - 1];
    }
  }

  /** Likewise a call of the consumer returns within 13 accesses of its own. */
  lemma {:induction false} DequeueReturns<T>(run: Run<T>, n: nat)
    requires run.Valid() && n <= |run.schedule|
    requires forall j | 0 <= j < n :: !run.states[j].c.CIdle?
    ensures Consumes(run.schedule[..n]) + ConsumerRank(run.states[n].c) <= ConsumerRank(run.states[0].c) <= 13
  {
    if n > 0 {
      DequeueReturns(run, n - 1);
      ConsumerRankFalls(run, n);
      assert run.schedule[..n][..n - 1] == run.schedule[..n - 1];
    }
  }
}
