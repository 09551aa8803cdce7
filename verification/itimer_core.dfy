/** The timer core of timer_wheel/itimer.c: five wheels of rings of timers. */
module TimerCore {
  import opened TimerRing
  import opened TimerPlace
  import opened TimerShape
  import opened TimerSet
  import opened TimerTiming
  import opened Verdicts

  /** What a callback may do to the timers. */
  datatype Command = Add(n: Node, expires: Word) | Del(n: Node) | Mod(n: Node, expires: Word)

  ghost predicate Knows(timers: set<Node>, script: seq<Command>, i: nat)
    requires i < |script|
  {
    script[i].n in timers
  }

  /** A script is about initialised timers. */
  ghost predicate Allowed(timers: set<Node>, script: seq<Command>) {
    forall i {:trigger Knows(timers, script, i)} | 0 <= i < |script| :: Knows(timers, script, i)
  }

  ghost predicate AllAllowed(timers: set<Node>, scripts: seq<seq<Command>>) {
    forall i {:trigger Allowed(timers, scripts[i])} | 0 <= i < |scripts| :: Allowed(timers, scripts[i])
  }

  /** The history and the pending timers. */
  datatype Story = Story(trace: seq<Event>, due: map<Node, nat>) {
    ghost function After(c: Command, time: nat): Story {
      var gone := if !c.Add? && c.n in due then trace + [Cancelled(c.n)] else trace;
      if c.Del? then Story(gone, due - {c.n})
      else
        var tick := DueTick(c.expires, time);
        Story(gone + [Armed(c.n, tick)], due[c.n := tick])
    }

    /** The story after the first i commands of a script. */
    ghost function AfterAll(script: seq<Command>, i: nat, time: nat): (s: Story)
      requires i <= |script|
      ensures trace <= s.trace
    {
      if i == 0 then this else AfterAll(script, i - 1, time).After(script[i - 1], time)
    }

    /** The story after a timer has fired and its callback has run a script. */
    ghost function AfterFiring(f: Firing, script: seq<Command>): (s: Story)
      ensures trace <= s.trace
    {
      Story(trace + [Fired(f.n, f.tick)], due - {f.n}).AfterAll(script, |script|, f.tick + 1)
    }

    /** The story after some timers have fired, the k-th callback running the k-th script, if there is one. */
    ghost function AfterFirings(fired: seq<Firing>, scripts: seq<seq<Command>>): (s: Story)
      ensures trace <= s.trace
    {
      if fired == [] then this
      else
        var k := |fired| - 1;
        AfterFirings(fired[..k], scripts).AfterFiring(fired[k], ScriptAt(scripts, k))
    }
  }

  /** A timer fires in a tick. */
  datatype Firing = Firing(n: Node, tick: nat)

  ghost function ScriptAt<T>(scripts: seq<seq<T>>, k: nat): seq<T> {
    if k < |scripts| then scripts[k] else []
  }

  /** The scripts that remain when k callbacks have run. */
  ghost function Left<T>(scripts: seq<seq<T>>, k: nat): seq<seq<T>> {
    if k <= |scripts| then scripts[k..] else []
  }

  lemma LeftLeft<T>(scripts: seq<seq<T>>, k: nat, m: nat)
    ensures Left(Left(scripts, k), m) == Left(scripts, k + m)
    ensures ScriptAt(Left(scripts, k), m) == ScriptAt(scripts, k + m)
  {
  }

  ghost predicate FiredWithin(fired: seq<Firing>, from: nat, to: nat) {
    forall i {:trigger fired[i]} | 0 <= i < |fired| :: from <= fired[i].tick < to
  }

  /** Firings one after the other. */
  lemma {:induction false} FiringsJoin(s: Story, a: seq<Firing>, b: seq<Firing>, scripts: seq<seq<Command>>)
    ensures s.AfterFirings(a + b, scripts) == s.AfterFirings(a, scripts).AfterFirings(b, Left(scripts, |a|))
    decreases |b|
  {
    if b == [] {
      assert a + b == a;
    } else {
      var k := |b| - 1;
      FiringsJoin(s, a, b[..k], scripts);
      assert (a + b)[..|a + b| - 1] == a + b[..k];
      LeftLeft(scripts, |a|, k);
    }
  }

  lemma FiringsOne(s: Story, fired: seq<Firing>, f: Firing, scripts: seq<seq<Command>>)
    ensures s.AfterFirings(fired + [f], scripts)
      == s.AfterFirings(fired, scripts).AfterFiring(f, ScriptAt(scripts, |fired|))
  {
    assert (fired + [f])[..|fired|] == fired;
  }

  lemma AllowedLeft(timers: set<Node>, scripts: seq<seq<Command>>, k: nat)
    requires AllAllowed(timers, scripts)
    ensures AllAllowed(timers, Left(scripts, k))
  {
    forall i | 0 <= i < |Left(scripts, k)| ensures Allowed(timers, Left(scripts, k)[i]) {
      assert Allowed(timers, scripts[k + i]);
    }
  }

  /** The story has gone on from `was` to `now` by just these timers firing, in ticks between `from` and `to`,
      and these scripts remain. */
  ghost function Course(
      was: Story, now: Story, fired: seq<Firing>, scripts: seq<seq<Command>>, left: seq<seq<Command>>,
      from: nat, to: nat): Verdict
  {
    if now == was.AfterFirings(fired, scripts) && left == Left(scripts, |fired|) && FiredWithin(fired, from, to)
    then Sound else Broken
  }

  lemma CourseStarts(was: Story, scripts: seq<seq<Command>>, from: nat, to: nat)
    ensures Course(was, was, [], scripts, scripts, from, to).Sound?
  {
  }

  /** One more timer fires. */
  lemma CourseOne(
      was: Story, mid: Story, now: Story, fired: seq<Firing>, f: Firing, scripts: seq<seq<Command>>,
      left: seq<seq<Command>>, from: nat, to: nat)
    requires Course(was, mid, fired, scripts, left, from, to).Sound?
    requires now == mid.AfterFiring(f, ScriptAt(left, 0)) && from <= f.tick < to
    ensures Course(was, now, fired + [f], scripts, Left(left, 1), from, to).Sound?
  {
    FiringsOne(was, fired, f, scripts);
    LeftLeft(scripts, |fired|, 0);
    LeftLeft(scripts, |fired|, 1);
    WithinOne(fired, f, from, to);
  }

  lemma WithinOne(fired: seq<Firing>, f: Firing, from: nat, to: nat)
    requires FiredWithin(fired, from, to) && from <= f.tick < to
    ensures FiredWithin(fired + [f], from, to)
  {
  }

  /** The timers of one more tick fire. */
  lemma CourseMore(
      was: Story, mid: Story, now: Story, a: seq<Firing>, b: seq<Firing>, scripts: seq<seq<Command>>,
      left: seq<seq<Command>>, rest: seq<seq<Command>>, from: nat, middle: nat, to: nat)
    requires Course(was, mid, a, scripts, left, from, middle).Sound?
      && Course(mid, now, b, left, rest, middle, to).Sound?
    requires from <= middle <= to
    ensures Course(was, now, a + b, scripts, rest, from, to).Sound?
  {
    FiringsJoin(was, a, b, scripts);
    LeftLeft(scripts, |a|, |b|);
    WithinJoin(a, b, from, middle, to);
  }

  lemma WithinJoin(a: seq<Firing>, b: seq<Firing>, from: nat, middle: nat, to: nat)
    requires FiredWithin(a, from, middle) && FiredWithin(b, middle, to) && from <= middle <= to
    ensures FiredWithin(a + b, from, to)
  {
  }

  lemma CourseAllowed(
      timers: set<Node>, was: Story, now: Story, fired: seq<Firing>, scripts: seq<seq<Command>>,
      left: seq<seq<Command>>,
      from: nat, to: nat)
    requires Course(was, now, fired, scripts, left, from, to).Sound? && AllAllowed(timers, scripts)
    ensures AllAllowed(timers, left)
  {
    AllowedLeft(timers, scripts, |fired|);
  }

  // ----- Timers that are left alone -----------------------------------------------------------

  ghost predicate Unnamed(n: Node, scripts: seq<seq<Command>>) {
    forall i, j | 0 <= i < |scripts| && 0 <= j < |scripts[i]| :: scripts[i][j].n != n
  }

  /** Commands about other timers leave a timer alone. */
  lemma {:induction false} ScriptLeavesAlone(s: Story, script: seq<Command>, i: nat, time: nat, n: Node, from: nat)
    requires i <= |script| && LeftAlone(s.trace, n, from) && forall j | 0 <= j < |script| :: script[j].n != n
    ensures LeftAlone(s.AfterAll(script, i, time).trace, n, from)
    decreases i
  {
    if i > 0 {
      ScriptLeavesAlone(s, script, i - 1, time, n, from);
    }
  }

  /** And so do callbacks that run such scripts. */
  lemma {:induction false} FiringsLeaveAlone(
      s: Story, fired: seq<Firing>, scripts: seq<seq<Command>>, n: Node, from: nat)
    requires LeftAlone(s.trace, n, from) && Unnamed(n, scripts)
    ensures LeftAlone(s.AfterFirings(fired, scripts).trace, n, from)
    decreases |fired|
  {
    if fired != [] {
      var k := |fired| - 1;
      FiringsLeaveAlone(s, fired[..k], scripts, n, from);
      var before, f := s.AfterFirings(fired[..k], scripts), fired[k];
      var script := ScriptAt(scripts, k);
      ScriptLeavesAlone(
        Story(before.trace + [Fired(f.n, f.tick)], before.due - {f.n}), script, |script|, f.tick + 1, n, from);
    }
  }

  /** The list heads of an empty core. */
  method NewHeads() returns (heads: seq<Node>, ghost nodes: set<Node>)
    ensures |heads| == SLOTS && Injective(heads) && nodes == set n | n in heads
    ensures fresh(nodes) && forall n {:trigger IsInit(n)} | n in nodes :: IsInit(n)
  {
    heads, nodes := [], {};
    while |heads| < SLOTS
      invariant |heads| <= SLOTS && Injective(heads) && nodes == set n | n in heads
      invariant fresh(nodes) && forall n {:trigger IsInit(n)} | n in nodes :: IsInit(n)
    {
      var head := new Node.Init();
      ghost var before := heads;
      heads := heads + [head];
      nodes := nodes + {head};
      forall i, j | 0 <= i < j < |heads| ensures Differ(heads, i, j) {
        assert before[i] in nodes - {head};
        if j < |before| {
          assert Differ(before, i, j);
        }
      }
    }
  }

  /** What there is to keep in order. */
  datatype Aspect = OfRings | OfPointers | OfTimes | OfEvents

  class Core {
    /** timer_jiffies, a 32-bit word. */
    var jiffies: Word
    /** The list heads of tv1, tv2, tv3, tv4 and tv5, in this order. */
    const heads: seq<Node>

    /** The initialised timer nodes; these and all list heads, past local ones included. */
    ghost const timers: set<Node>
    ghost var repr: set<Node>
    /** The rings and the fields of all nodes. */
    ghost var shape: Shape
    ghost var data: Data
    /** The tick to run next, not reduced to a word. */
    ghost var time: nat
    /** The outer wheels cascaded for this tick. */
    ghost var done: nat
    /** The local list holds timers due within `width` ticks from now, or, if 0, in the last tick. */
    ghost var width: nat
    /** The pending timers with their due ticks, and the events so far. */
    ghost var due: map<Node, nat>
    ghost var trace: seq<Event>

    /** The nodes in memory are as `shape` and `data` say, where every slot and the local list are
        well-formed circular lists, all disjoint, and every other timer a ring of its own. */
    ghost function Structure(): Verdict
      reads `shape, `data, `repr, repr
    {
      if shape.Check(timers, heads).Sound? && Memory(shape.links, data, repr).Sound? then Sound else Broken
    }

    /** The pending timers are the linked ones, and each is in a place right for its due tick. */
    ghost function Timing(): Verdict
      reads this
    {
      Right(timers, shape.at, due, data.expires, time, done, width)
    }

    /** The pending timers are what the events say, and timers have only fired in their due ticks. */
    ghost function History(): Verdict
      reads `due, `trace, `time
    {
      Told(trace, due, time)
    }

    // ----- Initialisation ---------------------------------------------------------------------

    /** itimer_core_init, for timers prepared by itimer_node_init. */
    constructor (start: Word, ghost nodes: set<Node>)
      requires forall n {:trigger IsInit(n)} | n in nodes :: IsInit(n)
      ensures Ready() && shape.Local() == []
      ensures timers == nodes && jiffies == start == time && due == map[] && trace == []
      ensures fresh(repr - nodes) && nodes <= repr
    {
      var hs, added := NewHeads();
      jiffies, heads := start, hs;
      ghost var all := nodes + added;
      timers, repr := nodes, all;
      time, done, width, due, trace := start, 0, 0, map[], [];
      shape := EmptyShape(nodes, hs);
      data := Data(map n | n in all :: 0, map n | n in all :: false);
      new;
      forall n | n in hs ensures n !in nodes {
        assert n in added;
      }
      EmptyValid(nodes, hs);
      InitMemory(all);
      NothingPending();
    }

    lemma NothingPending()
      requires due == map[] && trace == [] && (forall n | n in timers :: n !in shape.at)
      requires forall n | n in timers ::
        n in data.expires && n in data.attached && data.expires[n] == 0 && !data.attached[n]
      ensures Linked().Sound? && Timing().Sound? && History().Sound?
    {
      forall n | n in timers ensures NodeAt(shape.at, data, n) {
      }
      forall n | n in timers + due.Keys ensures RightAt(n, timers, shape.at, due, data.expires, time, done, width) {
      }
      forall k | 0 <= k <= |trace| ensures ToldAt(trace, due, time, k) {
      }
    }

    ghost method Record(e: Event)
      requires History().Sound?
      requires e.Fired? ==> e.n in due && due[e.n] == e.tick && e.tick < time
      modifies `due, `trace
      ensures History().Sound? && trace == old(trace) + [e] && due == After(old(due), e)
    {
      ToldMore(trace, due, time, e);
      trace := trace + [e];
      due := After(due, e);
    }

    ghost function Linked(): Verdict
      reads `shape, `data
    {
      Nodes(timers, shape.at, data)
    }

    ghost predicate Has(a: Aspect)
      reads this, repr
    {
      match a
      case OfRings => Structure().Sound?
      case OfPointers => Linked().Sound?
      case OfTimes => Timing().Sound? && jiffies == time % WORD
      case OfEvents => History().Sound?
    }

    ghost function Whole(): Verdict
      reads this, repr
    {
      if forall a {:trigger Has(a)} :: Has(a) then Sound else Broken
    }

    /** What holds whenever no timer is on its way from one list to another. */
    ghost predicate Steady()
      reads this, repr
    {
      Whole().Sound?
    }

    lemma Aspects()
      requires Steady()
      ensures Structure().Sound? && Linked().Sound? && Timing().Sound? && History().Sound? && jiffies == time % WORD
    {
      assert Has(OfRings) && Has(OfPointers) && Has(OfTimes) && Has(OfEvents);
    }

    /** Between calls, and inside a callback: there the timers of the last tick that have yet to
        fire are in the local list. */
    ghost predicate Ready()
      reads this, repr
    {
      Steady() && done == 0 && width == 0
    }

    lemma NoneInList()
      requires Steady() && shape.Local() == []
      ensures NoneQueued(shape.at)
    {
      Aspects();
      NoneLocal(shape, timers, heads);
    }

    /** The local list, if there is one, keeps its head and does not grow. */
    ghost predicate Keeps(before: seq<Node>)
      reads `shape
    {
      && |shape.Local()| <= |before|
      && (before != [] ==> shape.Local() != [] && shape.Local()[0] == before[0])
    }

    // ----- Rings ------------------------------------------------------------------------------

    /** iqueue_del_init on a linked timer. */
    method Unlink(n: Node)
      requires Structure().Sound? && n in timers && n in shape.at
      modifies `shape, repr
      ensures Structure().Sound? && shape.at == old(shape.at) - {n}
      ensures shape.Local() == ListWithout(old(shape), n)
    {
      UnlinkedValid(shape, timers, heads, n);
      StoredDelInit(n, shape.links, data, repr);
      shape := Unlinked(shape, n);
    }

    /** iqueue_add_tail of an unlinked timer. */
    method Link(n: Node, j: nat)
      requires Structure().Sound? && n in timers && n !in shape.at && j < SLOTS
      modifies `shape, repr
      ensures Structure().Sound? && shape.at == old(shape.at)[n := j]
      ensures shape.Local() == old(shape.Local())
    {
      ghost var before := shape;
      LinkedValid(before, timers, heads, n, j);
      StoredAddTail(n, heads[j], before.links, data, repr);
      shape := LinkedTo(before, n, j);
    }

    /** iqueue_init of a fresh local list. */
    method NewList() returns (q: Node)
      requires Structure().Sound? && Linked().Sound?
      modifies `shape, `data, `repr
      ensures Structure().Sound? && Linked().Sound?
      ensures fresh(q) && repr == old(repr) + {q} && Fresh(shape, timers, q)
      ensures shape.at == old(shape.at) && shape.Local() == old(shape.Local())
      ensures data.expires == old(data.expires)[q := 0]
    {
      q := StoredNew(shape.links, data, repr);
      ghost var s, d := shape, data;
      NewValid(s, timers, heads, q);
      NodesData(timers, s.at, d, q);
      repr := repr + {q};
      data := Data(d.expires[q := 0], d.attached[q := false]);
      shape := Shape(s.rings, s.at, Links(s.links.next[q := q], s.links.prev[q := q]));
    }

    /** iqueue_splice_init of a slot onto a fresh local list. */
    method MoveTo(j: nat, q: Node)
      requires Structure().Sound? && j < SLOTS && shape.Local() == [] && q in repr && Fresh(shape, timers, q)
      modifies `shape, repr
      ensures Structure().Sound? && shape.Local() != [] && shape.Local()[0] == q
      ensures |heads| == SLOTS && heads[j] !in timers
      ensures shape.at == MovedAt(old(shape.at), j, heads[j], q)
    {
      ghost var before := shape;
      OpenedValid(before, timers, heads, j, q);
      StoredSpliceInit(heads[j], q, before.links, data, repr);
      shape := Opened(before, j, q);
    }

    /** The first timer of the local list, or its head if none is left. */
    method First(q: Node) returns (n: Node)
      requires Steady() && shape.Local() != [] && shape.Local()[0] == q
      ensures n == q <==> |shape.Local()| == 1
      ensures n != q ==> n in timers && n in shape.at && shape.at[n] == QUEUED && n in shape.Local()
    {
      Aspects();
      FirstOf(shape, timers, heads);
      Stored(q, shape.links, data, repr);
      n := q.next;
    }

    /** The local list goes out of scope. */
    ghost method Close()
      requires Structure().Sound? && |shape.Local()| == 1
      modifies `shape
      ensures Structure().Sound? && shape.Local() == []
      ensures shape.at == old(shape.at) - {old(shape.Local()[0])} && old(shape.Local()[0]) !in timers
    {
      ClosedValid(shape, timers, heads);
      shape := Closed(shape);
    }

    // ----- Single timers ----------------------------------------------------------------------

    method SetCore(n: Node, b: bool)
      requires Structure().Sound? && n in timers
      modifies `data, repr
      ensures Structure().Sound? && data == old(data).(attached := old(data).attached[n := b])
    {
      IsKnown(shape, timers, heads, n);
      StoredAttached(n, b, shape.links, data, repr);
      data := data.(attached := data.attached[n := b]);
    }

    method SetTime(n: Node, e: nat)
      requires Structure().Sound? && n in timers
      modifies `data, repr
      ensures Structure().Sound? && data == old(data).(expires := old(data).expires[n := e])
    {
      IsKnown(shape, timers, heads, n);
      StoredExpires(n, e, shape.links, data, repr);
      data := data.(expires := data.expires[n := e]);
    }

    /** The slot for a timer, from its expiry and the tick to come. */
    method ChooseSlot(n: Node) returns (slot: nat)
      requires Structure().Sound? && n in timers && n in data.expires && data.expires[n] < WORD
      ensures slot == AddSlot(data.expires[n], jiffies)
    {
      IsKnown(shape, timers, heads, n);
      Stored(n, shape.links, data, repr);
      slot := AddSlot(n.expires, jiffies);
    }

    /** itimer_internal_add */
    method InternalAdd(n: Node)
      requires Structure().Sound? && NodesAfterAdd(timers, shape.at, data, n).Sound? && n in timers && n !in shape.at
      requires n in data.expires && data.expires[n] < WORD
      modifies `shape, `data, repr
      ensures Structure().Sound? && Linked().Sound? && data.expires == old(data.expires)
      ensures shape.at == old(shape.at)[n := AddSlot(old(data.expires[n]), jiffies)]
      ensures shape.Local() == old(shape.Local())
    {
      var slot := ChooseSlot(n);
      NodesAdded(timers, shape.at, data, n, slot);
      Link(n, slot);
      SetCore(n, true);
    }

    /** Taking out a linked timer and clearing its core pointer. */
    method Drop(n: Node)
      requires Structure().Sound? && Linked().Sound? && n in timers && n in shape.at
      modifies `shape, `data, repr
      ensures Structure().Sound? && Linked().Sound?
      ensures shape.at == old(shape.at) - {n} && shape.Local() == ListWithout(old(shape), n)
      ensures data.expires == old(data.expires)
    {
      NodesDropped(timers, shape.at, data, n);
      Unlink(n);
      SetCore(n, false);
    }

    /** iqueue_is_empty on the link of a timer. */
    method IsEmpty(n: Node) returns (b: bool)
      requires Structure().Sound? && n in timers
      ensures b <==> n !in shape.at
    {
      SelfLinked(shape, timers, heads, n);
      Stored(n, shape.links, data, repr);
      b := n == n.next;
    }

    /** Taking out a timer, if it is linked. */
    method Loosen(n: Node)
      requires Structure().Sound? && Linked().Sound? && n in timers
      modifies `shape, `data, repr
      ensures Structure().Sound? && Linked().Sound?
      ensures shape.at == old(shape.at) - {n} && data.expires == old(data.expires)
      ensures Keeps(old(shape.Local()))
    {
      Shorter(shape, timers, heads, n);
      var empty := IsEmpty(n);
      if !empty {
        Drop(n);
      }
    }

    /** Taking out a linked timer for good. */
    method Detach(n: Node, ghost e: Event)
      requires Ready() && n in timers && n in shape.at && e.n == n && !e.Armed?
      requires e.Fired? ==> n in due && due[n] == e.tick && e.tick < time
      modifies `shape, `data, `due, `trace, repr
      ensures Ready() && due == old(due) - {n} && trace == old(trace) + [e]
      ensures Keeps(old(shape.Local()))
      ensures n in old(shape.Local()) ==> |shape.Local()| < |old(shape.Local())|
    {
      Aspects();
      RemoveRight(n, timers, shape.at, due, data.expires, time, done, width);
      Shorter(shape, timers, heads, n);
      Drop(n);
      Record(e);
    }

    /** The part of itimer_node_add that changes the lists. */
    method Relink(n: Node, expires: Word)
      requires Structure().Sound? && Linked().Sound? && n in timers
      modifies `shape, `data, repr
      ensures Structure().Sound? && Linked().Sound? && Keeps(old(shape.Local()))
      ensures shape.at == (old(shape.at) - {n})[n := AddSlot(expires, jiffies)]
      ensures data.expires == old(data.expires)[n := expires]
    {
      Loosen(n);
      NodesToAdd(timers, shape.at, data, n, expires);
      SetTime(n, expires);
      InternalAdd(n);
    }

    /** itimer_node_add: the timer is due in the next tick with that expiry, or if that is past, in
        the very next one, whether or not it was pending before. */
    method NodeAdd(n: Node, expires: Word)
      requires Ready() && n in timers
      modifies `shape, `data, `due, `trace, repr
      ensures Ready() && due == old(due)[n := DueTick(expires, time)]
      ensures trace == old(trace) + [Armed(n, DueTick(expires, time))]
      ensures Keeps(old(shape.Local()))
    {
      Aspects();
      AddRight(n, expires, timers, shape.at, due, data.expires, time, done, width);
      Relink(n, expires);
      Record(Armed(n, DueTick(expires, time)));
    }

    /** itimer_node_del: 1 if the timer was pending, and then it no longer is. */
    method NodeDel(n: Node) returns (r: int)
      requires Ready() && n in timers
      modifies `shape, `data, `due, `trace, repr
      ensures Ready() && due == old(due) - {n}
      ensures r == if n in old(due) then 1 else 0
      ensures trace == old(trace) + if r == 1 then [Cancelled(n)] else []
      ensures Keeps(old(shape.Local()))
    {
      Aspects();
      PendingIsLinked(n, timers, shape.at, due, data.expires, time, done, width);
      var empty := IsEmpty(n);
      if !empty {
        Detach(n, Cancelled(n));
        r := 1;
      } else {
        assert due - {n} == due;
        r := 0;
      }
    }

    /** itimer_node_mod */
    method NodeMod(n: Node, expires: Word) returns (r: int)
      requires Ready() && n in timers
      modifies `shape, `data, `due, `trace, repr
      ensures Ready() && due == old(due)[n := DueTick(expires, time)]
      ensures r == if n in old(due) then 1 else 0
      ensures trace == old(trace) + (if r == 1 then [Cancelled(n)] else []) + [Armed(n, DueTick(expires, time))]
      ensures Keeps(old(shape.Local()))
    {
      r := NodeDel(n);
      NodeAdd(n, expires);
    }

    // ----- Cascading --------------------------------------------------------------------------

    /** The timers of a slot go to a fresh local list. */
    method MoveOut(slot: nat) returns (q: Node)
      requires Structure().Sound? && Linked().Sound? && shape.Local() == [] && slot < SLOTS
      modifies `shape, `data, `repr, repr
      ensures Structure().Sound? && Linked().Sound? && shape.Local() != [] && shape.Local()[0] == q
      ensures |heads| == SLOTS && heads[slot] !in timers && q !in timers
      ensures shape.at == MovedAt(old(shape.at), slot, heads[slot], q) && data.expires == old(data.expires)[q := 0]
      ensures fresh(q) && repr == old(repr) + {q}
    {
      q := NewList();
      MoveTo(slot, q);
      NodesSame(timers, old(shape.at), shape.at, data);
    }

    /** Opening a slot of an outer wheel: its timers are due within the span of the slot. */
    method OpenSlot(level: nat, index: nat) returns (q: Node)
      requires Steady() && shape.Local() == [] && width == 0
      requires 1 <= level <= 4 && done == level - 1
      requires time % Span(level) == 0 && index == time / Span(level) % 64
      modifies `shape, `data, `repr, `done, `width, repr
      ensures Steady() && done == level && width == Span(level)
      ensures shape.Local() != [] && shape.Local()[0] == q && q !in timers
      ensures fresh(repr - old(repr)) && old(repr) <= repr
      ensures Sunk(timers, old(shape.at), shape.at, SlotAt(level, index)).Sound?
    {
      Aspects();
      var slot := SlotAt(level, index);
      NoneLocal(shape, timers, heads);
      q := MoveOut(slot);
      SlotOpened(timers, old(shape.at), due, old(data.expires), time, level, index, heads[slot], q);
      OtherExpiry(q, timers, shape.at, due, old(data.expires), time, level, Span(level));
      SunkOpened(timers, old(shape.at), slot, heads[slot], q);
      done, width := level, Span(level);
    }

    /** Adding the first timer of the local list again. */
    method Resettle(n: Node, ghost level: nat) returns (ghost j: nat)
      requires Steady() && 1 <= level <= 4 && width == Span(level)
      requires n in timers && n in shape.at && shape.at[n] == QUEUED && n in shape.Local()
      modifies `shape, `data, repr
      ensures Steady() && Keeps(old(shape.Local())) && |shape.Local()| < |old(shape.Local())|
      ensures j < SLOTS && LevelOf(j) < level && shape.at == (old(shape.at) - {n})[n := j]
    {
      Aspects();
      AddedAgain(n, timers, shape.at, due, data.expires, time, done, level);
      NodesToMove(timers, shape.at, data, n);
      Shorter(shape, timers, heads, n);
      Unlink(n);
      InternalAdd(n);
      j := shape.at[n];
    }

    /** The end of a loop over the local list. */
    ghost method CloseList(q: Node)
      requires Steady() && |shape.Local()| == 1 && shape.Local()[0] == q
      modifies `shape, `width
      ensures Steady() && shape.Local() == [] && width == 0
      ensures q !in timers && shape.at == old(shape.at) - {q}
    {
      Aspects();
      Close();
      NoneLocal(shape, timers, heads);
      ListGone(q, timers, old(shape.at), due, data.expires, time, done, width);
      NodesSame(timers, old(shape.at), shape.at, data);
      width := 0;
    }

    /** itimer_internal_cascade: every timer of the slot goes to a lower wheel. */
    method Cascade(level: nat, index: nat)
      requires Steady() && shape.Local() == [] && width == 0
      requires 1 <= level <= 4 && done == level - 1
      requires time % Span(level) == 0 && index == time / Span(level) % 64
      modifies `shape, `data, `repr, `done, `width, repr
      ensures Steady() && shape.Local() == [] && done == level && width == 0
      ensures Sunk(timers, old(shape.at), shape.at, SlotAt(level, index)).Sound? && NoneQueued(shape.at)
      ensures fresh(repr - old(repr)) && old(repr) <= repr
    {
      ghost var was, slot := shape.at, SlotAt(level, index);
      NoneInList();
      var q := OpenSlot(level, index);
      var n := First(q);
      while n != q
        invariant Steady() && done == level && width == Span(level)
        invariant fresh(repr - old(repr)) && old(repr) <= repr
        invariant shape.Local() != [] && shape.Local()[0] == q && (n == q <==> |shape.Local()| == 1)
        invariant n != q ==> n in timers && n in shape.at && shape.at[n] == QUEUED && n in shape.Local()
        invariant Sunk(timers, was, shape.at, slot).Sound?
        decreases |shape.Local()|
      {
        ghost var at := shape.at;
        ghost var j := Resettle(n, level);
        SunkMore(timers, was, at, slot, n, j);
        n := First(q);
      }
      SunkClosed(timers, was, shape.at, slot, q);
      CloseList(q);
      NoneInList();
    }

    /** ITIMER_INDEX, and what it says about the unbounded time. */
    method WheelIndex(level: nat) returns (i: nat)
      requires level <= 4 && Steady() && time % Span(level) == 0
      ensures i == time / Span(level) % (if level == 0 then 256 else 64)
      ensures level < 4 ==> (i == 0 <==> time % Span(level + 1) == 0)
    {
      Aspects();
      if level == 0 {
        WordIndex(time, 1);
        i := jiffies % 256;
      } else {
        WordIndex(time, level);
        if level < 4 {
          NextWheel(time, level);
        }
        i := jiffies / Span(level) % 64;
      }
    }

    /** The cascades at the start of a tick. */
    method CascadeAll(index: nat)
      requires Ready() && shape.Local() == [] && (index == 0 <==> time % Span(1) == 0)
      modifies `shape, `data, `repr, `done, `width, repr
      ensures Steady() && shape.Local() == [] && done == 4 && width == 0
      ensures fresh(repr - old(repr)) && old(repr) <= repr
    {
      if index == 0 {
        var i := WheelIndex(1);
        Cascade(1, i);
        if i == 0 {
          i := WheelIndex(2);
          Cascade(2, i);
          if i == 0 {
            i := WheelIndex(3);
            Cascade(3, i);
            if i == 0 {
              i := WheelIndex(4);
              Cascade(4, i);
            }
          }
        }
      }
      SkipRest();
    }

    /** No wheel beyond those cascaded has a slot to open. */
    ghost method SkipRest()
      requires Steady() && shape.Local() == [] && width == 0 && done <= 4
      requires done < 4 ==> time % Span(done + 1) != 0
      modifies `done
      ensures Steady() && done == 4
    {
      Aspects();
      NoneInList();
      RestShut(timers, shape.at, due, data.expires, time, done);
      done := 4;
    }

    /** A tick up to its firing loop: afterwards the local list holds just the timers due in it. */
    method BeginTick() returns (q: Node)
      requires Ready() && shape.Local() == []
      modifies `jiffies, `shape, `data, `repr, `done, `width, `time, repr
      ensures Ready() && time == old(time) + 1
      ensures shape.Local() != [] && shape.Local()[0] == q && q !in timers
      ensures fresh(repr - old(repr)) && old(repr) <= repr
    {
      var index := WheelIndex(0);
      CascadeAll(index);
      q := Turn(index);
    }

    method Turn(index: nat) returns (q: Node)
      requires Steady() && done == 4 && width == 0 && shape.Local() == [] && index == time % 256
      modifies `jiffies, `shape, `data, `repr, `done, `time, repr
      ensures Ready() && time == old(time) + 1
      ensures shape.Local() != [] && shape.Local()[0] == q && q !in timers
      ensures fresh(repr - old(repr)) && old(repr) <= repr
    {
      Aspects();
      NextWord(time);
      jiffies := (jiffies + 1) % WORD;
      NoneLocal(shape, timers, heads);
      q := MoveOut(index);
      SlotTurnedTo(timers, old(shape.at), due, old(data.expires), time, heads[index], q);
      ToldLater(trace, due, time);
      done, time := 0, time + 1;
    }

    /** Taking the first timer off the local list, before its callback runs. */
    method Expire(n: Node)
      requires Ready() && n in timers && n in shape.at && shape.at[n] == QUEUED && n in shape.Local()
      modifies `shape, `data, `due, `trace, repr
      ensures Ready() && 0 < time && due == old(due) - {n} && trace == old(trace) + [Fired(n, time - 1)]
      ensures old(due) == due[n := time - 1]
      ensures Keeps(old(shape.Local())) && |shape.Local()| < |old(shape.Local())|
    {
      Aspects();
      PendingIsLinked(n, timers, shape.at, due, data.expires, time, done, width);
      Detach(n, Fired(n, time - 1));
    }

    ghost function Now(): Story
      reads `trace, `due
    {
      Story(trace, due)
    }

    /** What a callback does to the timers, one command after the other. */
    method Perform(script: seq<Command>)
      requires Ready() && Allowed(timers, script)
      modifies `shape, `data, `due, `trace, repr
      ensures Ready() && Keeps(old(shape.Local())) && Now() == old(Now()).AfterAll(script, |script|, time)
    {
      var i := 0;
      while i < |script|
        invariant i <= |script| && Ready() && Keeps(old(shape.Local()))
        invariant Now() == old(Now()).AfterAll(script, i, time)
      {
        assert Knows(timers, script, i);
        Execute(script[i]);
        i := i + 1;
      }
    }

    method Execute(c: Command)
      requires Ready() && c.n in timers
      modifies `shape, `data, `due, `trace, repr
      ensures Ready() && Keeps(old(shape.Local())) && Now() == old(Now()).After(c, time)
    {
      match c {
        case Add(n, expires) => NodeAdd(n, expires);
        case Del(n) => var _ := NodeDel(n);
        case Mod(n, expires) => var _ := NodeMod(n, expires);
      }
    }

    /** The timers that are still pending between ticks are not late. */
    lemma NoneIsLate()
      requires Ready() && shape.Local() == []
      ensures forall n | n in due :: due[n] >= time
    {
      Aspects();
      NoneLocal(shape, timers, heads);
      NoneLate(timers, shape.at, due, data.expires, time);
    }

    /** One round of itimer_internal_update: each timer of the tick fires, and the k-th callback runs
        the k-th script, if there is one. Nothing else happens, and no timer is late afterwards. */
    method Tick(scripts: seq<seq<Command>>) returns (left: seq<seq<Command>>, ghost fired: seq<Firing>)
      requires Ready() && shape.Local() == [] && AllAllowed(timers, scripts)
      modifies `jiffies, `shape, `data, `repr, `done, `width, `time, `due, `trace, repr
      ensures Ready() && shape.Local() == [] && time == old(time) + 1
      ensures Course(old(Now()), Now(), fired, scripts, left, old(time), time).Sound?
      ensures forall n | n in due :: due[n] >= time
      ensures fresh(repr - old(repr)) && old(repr) <= repr
    {
      CourseStarts(Now(), scripts, time, time + 1);
      var q := BeginTick();
      left, fired := scripts, [];
      var n := First(q);
      while n != q
        invariant Ready() && time == old(time) + 1
        invariant Course(old(Now()), Now(), fired, scripts, left, old(time), old(time) + 1).Sound?
        invariant fresh(repr - old(repr)) && old(repr) <= repr
        invariant shape.Local() != [] && shape.Local()[0] == q && (n == q <==> |shape.Local()| == 1)
        invariant n != q ==> n in timers && n in shape.at && shape.at[n] == QUEUED && n in shape.Local()
        decreases |shape.Local()|
      {
        left, fired := FireNext(n, left, old(Now()), fired, scripts);
        n := First(q);
      }
      CloseList(q);
      NoneIsLate();
    }

    /** One round of the firing loop, and the course of the whole tick so far. */
    method FireNext(
        n: Node, left: seq<seq<Command>>, ghost was: Story, ghost fired: seq<Firing>, ghost scripts: seq<seq<Command>>)
      returns (rest: seq<seq<Command>>, ghost all: seq<Firing>)
      requires Ready() && n in timers && n in shape.at && shape.at[n] == QUEUED && n in shape.Local()
      requires AllAllowed(timers, scripts) && 0 < time
        && Course(was, Now(), fired, scripts, left, time - 1, time).Sound?
      modifies `shape, `data, `due, `trace, repr
      ensures Ready() && Course(was, Now(), all, scripts, rest, time - 1, time).Sound?
      ensures Keeps(old(shape.Local())) && |shape.Local()| < |old(shape.Local())|
    {
      CourseAllowed(timers, was, Now(), fired, scripts, left, time - 1, time);
      rest := FireOne(n, left);
      CourseOne(was, old(Now()), Now(), fired, Firing(n, time - 1), scripts, left, time - 1, time);
      all := fired + [Firing(n, time - 1)];
    }

    /** The body of the firing loop. */
    method FireOne(n: Node, scripts: seq<seq<Command>>) returns (left: seq<seq<Command>>)
      requires Ready() && n in timers && n in shape.at && shape.at[n] == QUEUED && n in shape.Local()
      requires AllAllowed(timers, scripts)
      modifies `shape, `data, `due, `trace, repr
      ensures Ready() && AllAllowed(timers, left) && 0 < time && left == Left(scripts, 1)
      ensures Keeps(old(shape.Local())) && |shape.Local()| < |old(shape.Local())|
      ensures Now() == old(Now()).AfterFiring(Firing(n, time - 1), ScriptAt(scripts, 0))
    {
      AllowedLeft(timers, scripts, 1);
      Expire(n);
      left := scripts;
      if left != [] {
        assert Allowed(timers, left[0]);
        Perform(left[0]);
        left := left[1..];
      }
    }

    /** itimer_internal_update: it runs all ticks up to `until`, unless that is past. */
    method Update(until: Word, scripts: seq<seq<Command>>) returns (ghost fired: seq<Firing>)
      requires Ready() && shape.Local() == [] && AllAllowed(timers, scripts)
      modifies `jiffies, `shape, `data, `repr, `done, `width, `time, `due, `trace, repr
      ensures Ready() && shape.Local() == []
      ensures time == Goal(until, old(time)) >= old(time)
      ensures Now() == old(Now()).AfterFirings(fired, scripts) && FiredWithin(fired, old(time), time)
      ensures fresh(repr - old(repr)) && old(repr) <= repr
    {
      CourseStarts(Now(), scripts, time, time);
      Aspects();
      StopsAtGoal(until, time, time);
      var left := scripts;
      fired := [];
      while Ahead(until, jiffies) < HALF
        invariant Ready() && shape.Local() == []
        invariant fresh(repr - old(repr)) && old(repr) <= repr
        invariant old(time) <= time <= Goal(until, old(time))
        invariant Ahead(until, jiffies) < HALF <==> time < Goal(until, old(time))
        invariant Course(old(Now()), Now(), fired, scripts, left, old(time), time).Sound?
        decreases Goal(until, old(time)) - time
      {
        ghost var more, before, was, t := fired, Now(), left, time;
        CourseAllowed(timers, old(Now()), before, fired, scripts, left, old(time), t);
        left, more := Tick(left);
        Aspects();
        StopsAtGoal(until, old(time), time);
        CourseMore(old(Now()), before, Now(), fired, more, scripts, was, left, old(time), t, time);
        fired := fired + more;
      }
    }

    /** A timer armed for a tick and then left alone has fired, just once and in that tick, when the
        tick has been run, and is pending until then. */
    lemma FiresInItsTick(n: Node, tick: nat, k: nat) returns (at: nat)
      requires Ready() && shape.Local() == []
      requires k < |trace| && trace[k] == Armed(n, tick) && LeftAlone(trace, n, k + 1)
      ensures time <= tick ==>
        && n in due && due[n] == tick
        && (forall i {:trigger trace[i]} | k < i < |trace| :: trace[i].n != n)
      ensures tick < time ==>
        && k < at < |trace| && trace[at] == Fired(n, tick) && n !in due
        && (forall i {:trigger trace[i]} | k < i < |trace| && i != at :: trace[i].n != n)
    {
      Aspects();
      WhatIsTold(trace, due, time);
      NoneIsLate();
      at := PendingOrFired(trace, n, tick, k);
      if at != |trace| {
        assert ToldAt(trace, due, time, at);
      }
    }
  }
}
