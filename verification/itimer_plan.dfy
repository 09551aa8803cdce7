/** What the timer manager of timer_wheel/itimer.c keeps true of its events. */
module TimerPlan {
  import opened TimerRing
  import opened TimerPlace
  import opened TimerClock
  import opened Verdicts

  /** A timer event: its own fields and the timer node inside it. */
  class Evt {
    const node: Node
    var period: nat
    var slap: nat
    var repeat: int
    var running: bool
    /** Whether the manager pointer is set. */
    var started: bool

    /** itimer_evt_init */
    constructor ()
      ensures fresh(node) && IsInit(node)
      ensures period == slap == 0 && repeat == 0 && !running && !started
    {
      node := new Node.Init();
      period, slap, repeat, running, started := 0, 0, 0, false, false;
    }

    /** The assignments of itimer_evt_start. */
    method Begin(current: nat, period: nat, repeat: int, ghost book: map<Evt, Rec>, ghost evts: set<Evt>)
      requires Fields(book, evts).Sound? && this in evts && current + period < WORD
      modifies this
      ensures Fields(book[this := Rec.Begun(current, period, repeat)], evts).Sound?
      ensures slap == current + period
    {
      this.period := period;
      this.repeat := repeat;
      slap := (current + period) % WORD;
      started := true;
      running := false;
      ghost var book' := book[this := Rec.Begun(current, period, repeat)];
      forall m | m in evts ensures Mirrored(book', m) {
        assert old(Mirrored(book, m));
      }
    }

    /** The loop of itimer_evt_cb that counts the periods passed. */
    method Advance(current: nat, ghost k: Clock, ghost book: map<Evt, Rec>, ghost evts: set<Evt>)
      returns (count: nat, stop: bool, ghost r: Rec)
      requires Fields(book, evts).Sound? && this in evts && k.last == k.current == current
      requires var r := RecOf(book, this); r.Accounted(k) && r.started && r.owed == 0 && current + r.period < WORD
      modifies this
      ensures Fields(book[this := r], evts).Sound? && r.owed == count
      ensures Sibling(r, RecOf(book, this))
      ensures if stop then r.Calling(true).Accounted(k) else r.Accounted(k) && slap == r.slap > current
    {
      assert Mirrored(book, this);
      count, stop, r := 0, false, RecOf(book, this);
      while current >= slap
        invariant slap == r.slap && period == r.period > 0 && repeat == r.repeat
        invariant running == r.running && started == r.started
        invariant r.owed == count && r.Accounted(k) && Sibling(r, RecOf(book, this))
        invariant !stop
        decreases current + period - slap
      {
        DueIsAccounted(r, k);
        count := count + 1;
        slap := (slap + period) % WORD;
        if repeat == 1 {
          r := r.Due();
          stop := true;
          break;
        }
        if repeat > 1 {
          repeat := repeat - 1;
        }
        r := r.Due();
      }
      forall m | m in evts ensures Mirrored(book[this := r], m) {
        assert old(Mirrored(book, m));
      }
    }

    /** Setting evt->running, and evt->mgr to null if `stop`. */
    method Mark(running: bool, stop: bool, ghost book: map<Evt, Rec>, ghost evts: set<Evt>, ghost r: Rec)
      requires Fields(book, evts).Sound? && this in evts
      requires var o := RecOf(book, this);
        r == o.(running := running, started := o.started && !stop, finished := r.finished)
      modifies this
      ensures Fields(book[this := r], evts).Sound?
    {
      assert Mirrored(book, this);
      if stop {
        started := false;
      }
      this.running := running;
      forall m | m in evts ensures Mirrored(book[this := r], m) {
        assert old(Mirrored(book, m));
      }
    }

    /** The assignments of itimer_evt_stop. */
    method Clear(ghost book: map<Evt, Rec>, ghost evts: set<Evt>)
      requires Fields(book, evts).Sound? && this in evts
      modifies this
      ensures Fields(book[this := RecOf(book, this).Halted()], evts).Sound?
    {
      assert Mirrored(book, this);
      started := false;
      running := false;
      ghost var book' := book[this := RecOf(book, this).Halted()];
      forall m | m in evts ensures Mirrored(book', m) {
        assert old(Mirrored(book, m));
      }
    }
  }

  ghost predicate IsNew(e: Evt)
    reads e
  {
    e.period == e.slap == 0 && e.repeat == 0 && !e.running && !e.started
  }

  /** What users and the manager do to events. */
  datatype Entry =
    | Started(e: Evt, at: nat, period: nat, repeat: int)
    | Stopped(e: Evt)
    | Called(e: Evt)

  /** An event that has been started, and not stopped since by its user: when, how, and the calls of
      its callback so far. */
  datatype Life = Dead | Alive(at: nat, period: nat, repeat: int, calls: nat)

  ghost function LifeOf(log: seq<Entry>, e: Evt): Life {
    if log == [] then Dead
    else
      var k := |log| - 1;
      if log[k].e != e then LifeOf(log[..k], e)
      else
        match log[k]
        case Started(_, at, period, repeat) => Alive(at, period, repeat, 0)
        case Stopped(_) => Dead
        case Called(_) =>
          match LifeOf(log[..k], e) { case Dead => Dead case Alive(a, p, r, c) => Alive(a, p, r, c + 1) }
  }

  /** The event whose callback is running, if any. */
  datatype Busy = Nobody | Just(e: Evt)

  /** What an event's fields say, what its node waits for, and what has been done to it agree. */
  ghost predicate PlanAt(e: Evt, book: map<Evt, Rec>, due: map<Node, nat>, k: Clock, busy: Busy, log: seq<Entry>) {
    e in book
    && var r := book[e];
      && r.Accounted(k)
      && (r.started <==> e.node in due)
      && (r.started ==> r.Prompt(k, due[e.node]))
      && (r.running || r.owed > 0 ==> busy == Just(e))
      && Tells(LifeOf(log, e), r)
  }

  ghost function RecOf(book: map<Evt, Rec>, e: Evt): Rec {
    if e in book then book[e] else Rec(0, 0, 0, false, false, 0, 0, 0, 0, false)
  }

  /** The same start of the same event, with the same calls made. */
  ghost predicate Sibling(r: Rec, o: Rec) {
    && r.period == o.period && r.base == o.base && r.target == o.target && r.calls == o.calls
    && r.started == o.started && r.running == o.running && r.finished == o.finished
  }

  ghost predicate Tells(l: Life, r: Rec) {
    if l.Dead? then !r.started && !r.finished
    else
      && (r.started || r.finished)
      && r.base == l.at && r.period == l.period && r.target == l.repeat && r.calls == l.calls
  }

  ghost function Plan(
    evts: set<Evt>, book: map<Evt, Rec>, due: map<Node, nat>, k: Clock, busy: Busy, log: seq<Entry>): Verdict
  {
    if forall e {:trigger PlanAt(e, book, due, k, busy, log)} | e in evts :: PlanAt(e, book, due, k, busy, log)
    then Sound else Broken
  }

  /** Every node belongs to one event. */
  ghost predicate Owns(owner: map<Node, Evt>, timers: set<Node>, e: Evt) {
    e.node in timers && e.node in owner && owner[e.node] == e
  }

  ghost predicate Owned(owner: map<Node, Evt>, evts: set<Evt>, n: Node) {
    n in owner && owner[n] in evts && owner[n].node == n
  }

  ghost function Owners(owner: map<Node, Evt>, evts: set<Evt>, timers: set<Node>): Verdict {
    if
      && (forall e {:trigger Owns(owner, timers, e)} | e in evts :: Owns(owner, timers, e))
      && (forall n {:trigger Owned(owner, evts, n)} | n in timers :: Owned(owner, evts, n))
    then Sound else Broken
  }

  /** A step that concerns one event: its record, its node's due tick, the log and who is busy. */
  lemma PlanChange(
      e: Evt, r: Rec, owner: map<Node, Evt>, timers: set<Node>, evts: set<Evt>, book: map<Evt, Rec>,
      due: map<Node, nat>, due': map<Node, nat>, k: Clock, busy: Busy, busy': Busy,
      log: seq<Entry>, log': seq<Entry>)
    requires Plan(evts, book, due, k, busy, log).Sound? && Owners(owner, evts, timers).Sound? && e in evts
    requires due - {e.node} == due' - {e.node}
    requires log' == log || (log' != [] && log'[..|log'| - 1] == log && log'[|log'| - 1].e == e)
    requires busy == busy' || busy == Nobody || busy == Just(e)
    requires PlanAt(e, book[e := r], due', k, busy', log')
    ensures Plan(evts, book[e := r], due', k, busy', log').Sound?
  {
    forall m | m in evts ensures PlanAt(m, book[e := r], due', k, busy', log') {
      if m != e {
        assert Owns(owner, timers, e) && Owns(owner, timers, m) && m.node != e.node;
        assert PlanAt(m, book, due, k, busy, log);
        assert m.node in due <==> m.node in due - {e.node};
        assert m.node in due' <==> m.node in due' - {e.node};
        assert m.node in due ==> due[m.node] == (due - {e.node})[m.node] == (due' - {e.node})[m.node];
      }
    }
  }

  lemma PlanAtOf(
      e: Evt, evts: set<Evt>, book: map<Evt, Rec>, due: map<Node, nat>, k: Clock, busy: Busy, log: seq<Entry>)
    requires Plan(evts, book, due, k, busy, log).Sound? && e in evts
    ensures PlanAt(e, book, due, k, busy, log)
  {
  }

  /** A tick begins. */
  lemma PlanBegun(evts: set<Evt>, book: map<Evt, Rec>, due: map<Node, nat>, k: Clock, busy: Busy, log: seq<Entry>)
    requires Plan(evts, book, due, k, busy, log).Sound? && k.Valid()
    ensures Plan(evts, book, due, k.Begun(), busy, log).Sound?
  {
    var k' := k.Begun();
    forall e | e in evts ensures PlanAt(e, book, due, k', busy, log) {
      assert PlanAt(e, book, due, k, busy, log);
      LaterIsAccounted(book[e], k, k');
    }
  }

  /** A tick ends. */
  lemma PlanEnded(evts: set<Evt>, book: map<Evt, Rec>, due: map<Node, nat>, k: Clock, busy: Busy, log: seq<Entry>)
    requires Plan(evts, book, due, k, busy, log).Sound?
    ensures Plan(evts, book, due, k.Ended(), busy, log).Sound?
  {
    var k' := k.Ended();
    forall e | e in evts ensures PlanAt(e, book, due, k', busy, log) {
      assert PlanAt(e, book, due, k, busy, log);
      if e.node in due {
        EndedAt(k, due[e.node]);
      }
    }
  }

  /** Between ticks, with no timer late: every event that its user started and did not stop since
      has been called exactly as often as its period and repeat count say. */
  lemma CallsFollowTheClock(
      e: Evt, evts: set<Evt>, book: map<Evt, Rec>, due: map<Node, nat>, k: Clock, log: seq<Entry>)
    requires Plan(evts, book, due, k, Nobody, log).Sound? && e in evts
    requires k.Valid() && k.last == k.current - k.interval && forall n | n in due :: due[n] >= k.tick
    ensures var l := LifeOf(log, e); l.Alive? ==>
      && l.period > 0
      && var n := if k.last < l.at then 0 else (k.last - l.at) / l.period;
         l.calls == if 0 < l.repeat < n then l.repeat else n
  {
    assert PlanAt(e, book, due, k, Nobody, log);
    var r := book[e];
    if LifeOf(log, e).Alive? {
      CallsAreExact(r, k, if r.started then due[e.node] else 0);
    }
  }

  // ----- The records and the events in memory -------------------------------------------------

  ghost predicate Mirrored(book: map<Evt, Rec>, e: Evt)
    reads e
  {
    e in book
    && var r := book[e];
      && r.period == e.period && r.slap == e.slap && r.repeat == e.repeat
      && r.running == e.running && r.started == e.started
  }

  ghost function Fields(book: map<Evt, Rec>, evts: set<Evt>): Verdict
    reads evts
  {
    if forall e {:trigger Mirrored(book, e)} | e in evts :: Mirrored(book, e) then Sound else Broken
  }

  lemma FieldsOf(e: Evt, book: map<Evt, Rec>, evts: set<Evt>)
    requires Fields(book, evts).Sound? && e in evts
    ensures Mirrored(book, e)
  {
  }

  lemma FieldsPaid(e: Evt, book: map<Evt, Rec>, evts: set<Evt>)
    requires Fields(book, evts).Sound? && e in evts && RecOf(book, e).owed > 0
    ensures Fields(book[e := RecOf(book, e).Paid()], evts).Sound?
  {
    forall m | m in evts ensures Mirrored(book[e := RecOf(book, e).Paid()], m) {
      assert Mirrored(book, m);
    }
  }

  lemma OwnersOf(e: Evt, owner: map<Node, Evt>, timers: set<Node>, evts: set<Evt>)
    requires Owners(owner, evts, timers).Sound? && e in evts
    ensures e.node in timers && e.node in owner && owner[e.node] == e
  {
    assert Owns(owner, timers, e);
  }

  lemma OwnedBy(n: Node, owner: map<Node, Evt>, timers: set<Node>, evts: set<Evt>)
    requires Owners(owner, evts, timers).Sound? && n in timers
    ensures n in owner && owner[n] in evts && owner[n].node == n
  {
    assert Owned(owner, evts, n);
  }

  /** Stopping an event. */
  lemma PlanStop(
      e: Evt, owner: map<Node, Evt>, timers: set<Node>, evts: set<Evt>, book: map<Evt, Rec>, due: map<Node, nat>,
      k: Clock, busy: Busy, log: seq<Entry>)
    requires Plan(evts, book, due, k, busy, log).Sound? && Owners(owner, evts, timers).Sound? && e in evts
    ensures Plan(evts, book[e := RecOf(book, e).Halted()], due - {e.node}, k, busy, log + [Stopped(e)]).Sound?
  {
    PlanAtOf(e, evts, book, due, k, busy, log);
    var more := log + [Stopped(e)];
    assert more[..|log|] == log;
    PlanChange(e, RecOf(book, e).Halted(), owner, timers, evts, book, due, due - {e.node}, k, busy, busy, log, more);
  }

  /** Starting an event. */
  lemma PlanStart(
      e: Evt, owner: map<Node, Evt>, timers: set<Node>, evts: set<Evt>, book: map<Evt, Rec>, due: map<Node, nat>,
      k: Clock, busy: Busy, log: seq<Entry>, period: nat, repeat: int, tick: nat)
    requires Plan(evts, book, due, k, busy, log).Sound? && Owners(owner, evts, timers).Sound? && e in evts
    requires 0 < period <= k.longest && k.At(tick) - k.interval < k.current + period
    ensures Plan(
      evts, book[e := Rec.Begun(k.current, period, repeat)], due[e.node := tick], k, busy,
      log + [Started(e, k.current, period, repeat)]).Sound?
  {
    var more := log + [Started(e, k.current, period, repeat)];
    assert more[..|log|] == log;
    var r := Rec.Begun(k.current, period, repeat);
    PlanChange(e, r, owner, timers, evts, book, due, due[e.node := tick], k, busy, busy, log, more);
  }

  /** The part of a callback before the calls, given the plan as it was before the node fired: the
      periods are counted, and then the node waits for the next one or the event is finished. */
  lemma PlanFire(
      e: Evt, owner: map<Node, Evt>, timers: set<Node>, evts: set<Evt>, book: map<Evt, Rec>, due: map<Node, nat>,
      k: Clock, log: seq<Entry>, r: Rec, stop: bool, fired: nat, tick: nat)
    requires Plan(evts, book, due[e.node := fired], k, Nobody, log).Sound? && e.node !in due
    requires Owners(owner, evts, timers).Sound? && e in evts
    requires RecOf(book, e).started && Sibling(r, RecOf(book, e)) && r.Calling(stop).Accounted(k)
    requires !stop ==> r.Prompt(k, tick)
    ensures Plan(
      evts, book[e := r][e := r.Calling(stop)], if stop then due else due[e.node := tick], k, Just(e), log).Sound?
    ensures LifeOf(log, e).Alive?
  {
    var before := due[e.node := fired];
    PlanAtOf(e, evts, book, before, k, Nobody, log);
    var after := if stop then due else due[e.node := tick];
    assert book[e := r][e := r.Calling(stop)] == book[e := r.Calling(stop)];
    PlanChange(e, r.Calling(stop), owner, timers, evts, book, before, after, k, Nobody, Just(e), log, log);
  }

  /** One call. */
  lemma PlanCall(
      e: Evt, owner: map<Node, Evt>, timers: set<Node>, evts: set<Evt>, book: map<Evt, Rec>, due: map<Node, nat>,
      k: Clock, log: seq<Entry>)
    requires Plan(evts, book, due, k, Just(e), log).Sound? && Owners(owner, evts, timers).Sound? && e in evts
    requires RecOf(book, e).owed > 0 && LifeOf(log, e).Alive?
    ensures Plan(evts, book[e := RecOf(book, e).Paid()], due, k, Just(e), log + [Called(e)]).Sound?
  {
    PlanAtOf(e, evts, book, due, k, Just(e), log);
    var more := log + [Called(e)];
    assert more[..|log|] == log;
    PlanChange(e, RecOf(book, e).Paid(), owner, timers, evts, book, due, due, k, Just(e), Just(e), log, more);
  }

  /** The end of a callback. */
  lemma PlanOver(
      e: Evt, owner: map<Node, Evt>, timers: set<Node>, evts: set<Evt>, book: map<Evt, Rec>, due: map<Node, nat>,
      k: Clock, log: seq<Entry>)
    requires Plan(evts, book, due, k, Just(e), log).Sound? && Owners(owner, evts, timers).Sound? && e in evts
    requires RecOf(book, e).owed == 0
    ensures Plan(evts, book[e := RecOf(book, e).(running := false)], due, k, Nobody, log).Sound?
  {
    PlanAtOf(e, evts, book, due, k, Just(e), log);
    PlanChange(e, RecOf(book, e).(running := false), owner, timers, evts, book, due, due, k, Just(e), Nobody, log, log);
  }
}
