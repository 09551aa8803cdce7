/** The promises of the lock-free queue over whole runs. */
module SpscRuns {
  import opened PowersOfTwo
  import opened SpscQueue
  import opened SpscInvariant
  import opened SpscSteps
  import opened SpscConsumer
  import opened SpscRefinement
  import opened SpscSystem

  // ----- Construction -------------------------------------------------------------------------

  function InitialBlockCount(maxSize: nat, maxBlock: nat): nat
    requires 2 <= maxBlock
  {
    (maxSize + maxBlock * 2 - 3) / (maxBlock - 1)
  }

  /** The state the constructor leaves: empty blocks in a circle, of a size that is the least power
      of two above maxSize if that is at most 2 * MAX_BLOCK_SIZE, else MAX_BLOCK_SIZE. */
  ghost predicate Constructed<T>(m: Memory<T>, maxSize: nat, maxBlock: nat) {
    && 1 <= maxSize && 2 <= maxBlock && IsPow2(maxBlock)
    && m.frontBlock == 0 && m.tailBlock == 0 && m.maxBlock == maxBlock
    && 0 < |m.blocks|
    && (forall i | 0 <= i < |m.blocks| ::
          && |m.blocks[i].data| == m.largest
          && m.blocks[i] == Block(0, 0, 0, 0, if i + 1 == |m.blocks| then 0 else i + 1, m.blocks[i].data))
    && exists size: nat :: SizedFor(m, maxSize, maxBlock, size)
  }

  ghost predicate SizedFor<T>(m: Memory<T>, maxSize: nat, maxBlock: nat, size: nat)
    requires 2 <= maxBlock
  {
    && IsCeiling(maxSize + 1, size)
    && if size > maxBlock * 2
       then m.largest == maxBlock && |m.blocks| == InitialBlockCount(maxSize, maxBlock)
       else m.largest == size && |m.blocks| == 1
  }

  /** The constructor; `slots` stands for the indeterminate contents of a fresh block. */
  method Construct<T>(maxSize: nat, maxBlock: nat, slot: T) returns (m: Memory<T>)
    requires 1 <= maxSize < Pow2(WORD_BITS - 1) && 2 <= maxBlock && IsPow2(maxBlock)
    ensures Constructed(m, maxSize, maxBlock)
  {
    var size := CeilToPow2(maxSize + 1);
    var blocks: seq<Block<T>> := [];
    var largest := size;
    if size > maxBlock * 2 {
      var count := InitialBlockCount(maxSize, maxBlock);
      CountIsPositive(maxSize, maxBlock);
      largest := maxBlock;
      var i := 0;
      while i != count
        invariant i <= count && |blocks| == i
        invariant forall j | 0 <= j < i ::
            |blocks[j].data| == largest &&
            blocks[j] == Block(0, 0, 0, 0, if j + 1 == i then 0 else j + 1, blocks[j].data)
      {
        if i > 0 {
          blocks := blocks[i - 1 := blocks[i - 1].(next := i)];
        }
        blocks := blocks + [Block(0, 0, 0, 0, 0, seq(largest, _ => slot))];
        i := i + 1;
      }
    } else {
      blocks := [Block(0, 0, 0, 0, 0, seq(largest, _ => slot))];
    }
    m := Memory(blocks, 0, 0, largest, maxBlock);
    assert SizedFor(m, maxSize, maxBlock, size);
  }

  lemma CountIsPositive(maxSize: nat, maxBlock: nat)
    requires 1 <= maxSize && 2 <= maxBlock
    ensures 2 <= InitialBlockCount(maxSize, maxBlock)
    ensures (InitialBlockCount(maxSize, maxBlock) - 1) * (maxBlock - 1) >= maxSize
  {
    var d, n := maxBlock - 1, maxSize + maxBlock * 2 - 3;
    assert n == maxSize - 1 + 2 * d;
    assert n == d * (n / d) + n % d;
    assert (n / d - 1) * d == d * (n / d) - d;
    assert (n / d + 1) * d == d * (n / d) + d;
    Cancel(n / d + 1, 2, d);
  }

  lemma Cancel(x: nat, y: nat, d: nat)
    requires x * d > y * d
    ensures x > y
  {
  }

  ghost predicate Start<T>(s: State<T>, maxSize: nat, maxBlock: nat) {
    Constructed(s.m, maxSize, maxBlock) && s.p == PIdle && s.c == CIdle
  }

  lemma StartIsInvariant<T>(s: State<T>, maxSize: nat, maxBlock: nat)
    requires Start(s, maxSize, maxBlock)
    ensures s.Inv() && s.Typed() && s.m.Queue() == []
  {
    var n := |s.m.blocks|;
    var r: seq<nat> := seq(n, i requires 0 <= i < n => i);
    assert 2 <= s.m.largest;
    forall i | 0 <= i < n ensures s.m.blocks[i].Ordered() && s.m.blocks[i].next == NextIn(r, i) {
    }
    assert Ring(s.m, r, 0);
    assert s.InvAt(r, 0);
    assert s.m.blocks[0].Contents() == [];
  }

  // ----- Runs ---------------------------------------------------------------------------------

  /** A run: the states before and after every step of a schedule, and the events of the steps. */
  datatype Run<T> = Run(states: seq<State<T>>, schedule: seq<Action<T>>, evs: seq<Event<T>>) {
    ghost predicate Linked(j: nat)
      requires j < |schedule| == |evs| && |states| == |schedule| + 1
    {
      states[j].Typed() && Step(states[j], schedule[j]) == Outcome(states[j + 1], evs[j])
    }

    /** A run from a state with the invariant; its first j events and the state after them. */
    ghost predicate Valid() {
      && |evs| == |schedule| && |states| == |schedule| + 1
      && states[0].Inv()
      && forall j {:trigger Linked(j)} | 0 <= j < |schedule| :: Linked(j)
    }
  }

  lemma {:induction false} StateOf<T>(run: Run<T>, j: nat)
    requires run.Valid() && j <= |run.schedule|
    ensures run.states[j].Inv() && run.states[j].Typed()
  {
    if j > 0 {
      StateOf(run, j - 1);
      assert run.Linked(j - 1);
      StepRefines(run.states[j - 1], run.schedule[j - 1]);
    } else {
      InvIsTyped(run.states[0]);
    }
  }

  /** Every schedule has a run from every state with the invariant. */
  lemma {:induction false} RunExists<T>(s: State<T>, schedule: seq<Action<T>>) returns (run: Run<T>)
    requires s.Inv()
    ensures run.Valid() && run.schedule == schedule && run.states[0] == s
  {
    if schedule == [] {
      run := Run([s], [], []);
    } else {
      var n := |schedule| - 1;
      var before := RunExists(s, schedule[..n]);
      StateOf(before, n);
      var o := Step(before.states[n], schedule[n]);
      run := Run(before.states + [o.s], schedule, before.evs + [o.ev]);
      forall j | 0 <= j < |schedule| ensures run.Linked(j) {
        if j < n {
          assert before.Linked(j);
        }
      }
    }
  }

  /** The elements of the successful enqueue calls among `evs`, in order. */
  function Enqueues<T>(evs: seq<Event<T>>): seq<T> {
    if evs == [] then []
    else
      var n := |evs| - 1;
      Enqueues(evs[..n]) + if evs[n].Enqueued? then [evs[n].x] else []
  }

  /** The elements the successful dequeue calls returned, in order. */
  function Dequeues<T>(evs: seq<Event<T>>): seq<T> {
    if evs == [] then []
    else
      var n := |evs| - 1;
      Dequeues(evs[..n]) + if evs[n].Dequeued? then [evs[n].x] else []
  }

  lemma OneEvent<T>(evs: seq<Event<T>>, j: nat)
    requires j < |evs|
    ensures Enqueues(evs[..j + 1]) == Enqueues(evs[..j]) + if evs[j].Enqueued? then [evs[j].x] else []
    ensures Dequeues(evs[..j + 1]) == Dequeues(evs[..j]) + if evs[j].Dequeued? then [evs[j].x] else []
  {
    assert evs[..j + 1][..j] == evs[..j];
  }

  /** The abstract queue in a state. */
  function QueueOf<T>(s: State<T>): seq<T> {
    if s.Typed() then s.m.Queue() else []
  }

  lemma QueueAt<T>(run: Run<T>, j: nat)
    requires run.Valid() && j < |run.schedule|
    ensures QueueChange(run.evs[j], QueueOf(run.states[j]), QueueOf(run.states[j + 1]))
  {
    StateOf(run, j);
    assert run.Linked(j);
    StepRefines(run.states[j], run.schedule[j]);
  }

  /** Conservation over sequences: what was there and went in is what came out and stays. */
  lemma {:induction false} Conserved<T>(evs: seq<Event<T>>, qs: seq<seq<T>>, j: nat)
    requires |qs| == |evs| + 1 && j <= |evs|
    requires forall i | 0 <= i < |evs| :: QueueChange(evs[i], qs[i], qs[i + 1])
    ensures qs[0] + Enqueues(evs[..j]) == Dequeues(evs[..j]) + qs[j]
  {
    if j > 0 {
      Conserved(evs, qs, j - 1);
      OneEvent(evs, j - 1);
      var e, d := Enqueues(evs[..j - 1]), Dequeues(evs[..j - 1]);
      match evs[j - 1] {
        case Enqueued(x) => assert qs[0] + (e + [x]) == (qs[0] + e) + [x] == d + qs[j];
        case Dequeued(x) => assert (d + [x]) + qs[j] == d + qs[j - 1];
        case _ => assert e + [] == e && d + [] == d;
      }
    }
  }

  /** Linearizability to a FIFO queue: at every moment of every run, what was in the queue followed
      by what has been enqueued is what has been dequeued followed by what is in the queue. */
  lemma Fifo<T>(run: Run<T>, j: nat)
    requires run.Valid() && j <= |run.schedule|
    ensures QueueOf(run.states[0]) + Enqueues(run.evs[..j]) == Dequeues(run.evs[..j]) + QueueOf(run.states[j])
  {
    var qs := seq(|run.states|, i requires 0 <= i < |run.states| => QueueOf(run.states[i]));
    forall i | 0 <= i < |run.evs| ensures QueueChange(run.evs[i], qs[i], qs[i + 1]) {
      QueueAt(run, i);
    }
    Conserved(run.evs, qs, j);
  }

  /** From construction on, the dequeued elements are a prefix of the enqueued ones, in order, and
      the difference is what the queue holds. */
  lemma DequeuedIsPrefix<T>(run: Run<T>, maxSize: nat, maxBlock: nat, j: nat)
    requires run.Valid() && Start(run.states[0], maxSize, maxBlock) && j <= |run.schedule|
    ensures Enqueues(run.evs[..j]) == Dequeues(run.evs[..j]) + QueueOf(run.states[j])
  {
    StartIsInvariant(run.states[0], maxSize, maxBlock);
    Fifo(run, j);
    assert [] + Enqueues(run.evs[..j]) == Enqueues(run.evs[..j]);
  }

  /** No assert of the code fails at any moment of any run. */
  lemma RunsAreSafe<T>(run: Run<T>, j: nat)
    requires run.Valid() && j <= |run.schedule|
    ensures var s := run.states[j]; s.Typed() && AssertsHold(s.m, s.p, s.c)
  {
    StateOf(run, j);
    AssertsNeverFail(run.states[j]);
  }
}
