/** The timer manager of timer_wheel/itimer.c, on top of the timer core. */
module TimerManager {
  import opened TimerRing
  import opened TimerPlace
  import opened TimerShape
  import opened TimerCore
  import opened TimerClock
  import opened TimerPlan
  import opened Verdicts

  /** What a user callback does to the events. */
  datatype Order = Start(e: Evt, period: nat, repeat: int) | Stop(e: Evt)

  /** ITIMER_MGR_LIMIT, in milliseconds. */
  const LIMIT: nat := 300000

  ghost predicate Proper(evts: set<Evt>, longest: nat, o: Order) {
    o.e in evts && (o.Start? ==> 0 < o.period <= longest)
  }

  ghost predicate AllProper(evts: set<Evt>, longest: nat, script: seq<Order>) {
    forall i {:trigger Proper(evts, longest, script[i])} | 0 <= i < |script| :: Proper(evts, longest, script[i])
  }

  ghost predicate AllScripts(evts: set<Evt>, longest: nat, scripts: seq<seq<Order>>) {
    forall i {:trigger AllProper(evts, longest, scripts[i])} | 0 <= i < |scripts| ::
      AllProper(evts, longest, scripts[i])
  }

  lemma ScriptsLeft(evts: set<Evt>, longest: nat, scripts: seq<seq<Order>>, k: nat)
    requires AllScripts(evts, longest, scripts)
    ensures AllScripts(evts, longest, Left(scripts, k))
  {
    forall i | 0 <= i < |Left(scripts, k)| ensures AllProper(evts, longest, Left(scripts, k)[i]) {
      assert AllProper(evts, longest, scripts[k + i]);
    }
  }

  // ----- What is done to the events -----------------------------------------------------------

  /** A call of the callback of an event at a time; for each order of its script, whether the event had to be
      stopped before it was started. */
  datatype Call = Call(e: Evt, at: nat, stops: seq<bool>)

  /** What an order does to its event. */
  ghost function EntryOf(o: Order, stop: bool, at: nat): seq<Entry> {
    match o
    case Start(e, period, repeat) => (if stop then [Stopped(e)] else []) + [Started(e, at, period, repeat)]
    case Stop(e) => [Stopped(e)]
  }

  ghost function EntriesOf(script: seq<Order>, stops: seq<bool>, at: nat): seq<Entry> {
    if script == [] then []
    else
      var k := |script| - 1;
      EntriesOf(script[..k], stops, at) + EntryOf(script[k], k < |stops| && stops[k], at)
  }

  /** The log after some calls, of which the k-th runs the k-th script, if there is one. */
  ghost function LogAfter(log: seq<Entry>, calls: seq<Call>, scripts: seq<seq<Order>>): seq<Entry> {
    if calls == [] then log
    else
      var k := |calls| - 1;
      LogAfter(log, calls[..k], scripts) + [Called(calls[k].e)]
        + EntriesOf(ScriptAt(scripts, k), calls[k].stops, calls[k].at)
  }

  ghost predicate CalledWithin(calls: seq<Call>, from: nat, to: nat) {
    forall i {:trigger calls[i]} | 0 <= i < |calls| :: from <= calls[i].at <= to
  }

  /** The log has gone on from `was` to `now` by just these calls, at times from `from` to `to`, and these scripts
      remain. */
  ghost function Account(
      was: seq<Entry>, now: seq<Entry>, calls: seq<Call>, scripts: seq<seq<Order>>, left: seq<seq<Order>>,
      from: nat, to: nat)
    : Verdict
  {
    if now == LogAfter(was, calls, scripts) && left == Left(scripts, |calls|) && CalledWithin(calls, from, to)
    then Sound else Broken
  }

  lemma AccountStarts(was: seq<Entry>, scripts: seq<seq<Order>>, from: nat, to: nat)
    ensures Account(was, was, [], scripts, scripts, from, to).Sound?
  {
  }

  /** One more call. */
  lemma AccountOne(
      was: seq<Entry>, mid: seq<Entry>, calls: seq<Call>, c: Call, scripts: seq<seq<Order>>, left: seq<seq<Order>>,
      from: nat, to: nat)
    requires Account(was, mid, calls, scripts, left, from, to).Sound? && from <= c.at <= to
    ensures Account(
      was, mid + [Called(c.e)] + EntriesOf(ScriptAt(left, 0), c.stops, c.at), calls + [c],
      scripts, Left(left, 1), from, to).Sound?
  {
    assert (calls + [c])[..|calls|] == calls;
    LeftLeft(scripts, |calls|, 0);
    LeftLeft(scripts, |calls|, 1);
  }

  lemma {:induction false} LogJoin(log: seq<Entry>, a: seq<Call>, b: seq<Call>, scripts: seq<seq<Order>>)
    ensures LogAfter(log, a + b, scripts) == LogAfter(LogAfter(log, a, scripts), b, Left(scripts, |a|))
    decreases |b|
  {
    if b == [] {
      assert a + b == a;
    } else {
      var k := |b| - 1;
      LogJoin(log, a, b[..k], scripts);
      assert (a + b)[..|a + b| - 1] == a + b[..k];
      LeftLeft(scripts, |a|, k);
    }
  }

  /** More calls, later. */
  lemma AccountMore(
      was: seq<Entry>, mid: seq<Entry>, now: seq<Entry>, a: seq<Call>, b: seq<Call>, scripts: seq<seq<Order>>,
      left: seq<seq<Order>>, rest: seq<seq<Order>>, from: nat, until: nat, since: nat, to: nat)
    requires Account(was, mid, a, scripts, left, from, until).Sound?
      && Account(mid, now, b, left, rest, since, to).Sound?
    requires from <= since && until <= to
    ensures Account(was, now, a + b, scripts, rest, from, to).Sound?
  {
    assert now == LogAfter(was, a + b, scripts) by { LogJoin(was, a, b, scripts); }
    assert rest == Left(scripts, |a + b|) by { LeftLeft(scripts, |a|, |b|); }
    assert CalledWithin(a + b, from, to) by { BothWithin(a, b, from, until, since, to); }
  }

  lemma BothWithin(a: seq<Call>, b: seq<Call>, from: nat, until: nat, since: nat, to: nat)
    requires CalledWithin(a, from, until) && CalledWithin(b, since, to) && from <= since && until <= to
    ensures CalledWithin(a + b, from, to)
  {
    var both := a + b;
    forall i {:trigger both[i]} | 0 <= i < |both| ensures from <= both[i].at <= to {
      if i < |a| {
        assert both[i] == a[i];
      } else {
        assert both[i] == b[i - |a|];
      }
    }
  }

  lemma AccountWider(
      was: seq<Entry>, now: seq<Entry>, calls: seq<Call>, scripts: seq<seq<Order>>, left: seq<seq<Order>>, from: nat,
      until: nat, to: nat)
    requires Account(was, now, calls, scripts, left, from, until).Sound? && until <= to
    ensures Account(was, now, calls, scripts, left, from, to).Sound?
  {
  }

  lemma AccountProper(
      evts: set<Evt>, longest: nat, was: seq<Entry>, now: seq<Entry>, calls: seq<Call>, scripts: seq<seq<Order>>,
      left: seq<seq<Order>>, from: nat, to: nat)
    requires Account(was, now, calls, scripts, left, from, to).Sound? && AllScripts(evts, longest, scripts)
    ensures AllScripts(evts, longest, left)
  {
    ScriptsLeft(evts, longest, scripts, |calls|);
  }

  ghost predicate Unnamed(e: Evt, scripts: seq<seq<Order>>) {
    forall i, j | 0 <= i < |scripts| && 0 <= j < |scripts[i]| :: scripts[i][j].e != e
  }

  /** An event is still alive, started in the same way; it has only been called more often. */
  ghost predicate Outlives(before: Life, after: Life) {
    && before.Alive? && after.Alive? && after.at == before.at && after.period == before.period
    && after.repeat == before.repeat && after.calls >= before.calls
  }

  lemma {:induction false} LifeIsLater(log: seq<Entry>, more: seq<Entry>, e: Evt)
    requires LifeOf(log, e).Alive?
    requires forall i {:trigger more[i]} | 0 <= i < |more| :: more[i].e == e ==> more[i].Called?
    ensures Outlives(LifeOf(log, e), LifeOf(log + more, e))
    decreases |more|
  {
    if more == [] {
      assert log + more == log;
    } else {
      var k := |more| - 1;
      LifeIsLater(log, more[..k], e);
      assert (log + more)[..|log + more| - 1] == log + more[..k];
    }
  }

  lemma {:induction false} EntriesSpare(script: seq<Order>, stops: seq<bool>, at: nat, e: Evt)
    requires forall j | 0 <= j < |script| :: script[j].e != e
    ensures forall i {:trigger EntriesOf(script, stops, at)[i]} | 0 <= i < |EntriesOf(script, stops, at)| ::
      EntriesOf(script, stops, at)[i].e != e
    decreases |script|
  {
    if script != [] {
      EntriesSpare(script[..|script| - 1], stops, at, e);
    }
  }

  lemma CallSpares(log: seq<Entry>, c: Call, script: seq<Order>, e: Evt)
    requires LifeOf(log, e).Alive? && forall j | 0 <= j < |script| :: script[j].e != e
    ensures Outlives(LifeOf(log, e), LifeOf(log + [Called(c.e)] + EntriesOf(script, c.stops, c.at), e))
  {
    var entries := EntriesOf(script, c.stops, c.at);
    var more := [Called(c.e)] + entries;
    EntriesSpare(script, c.stops, c.at, e);
    forall i {:trigger more[i]} | 0 <= i < |more| ensures more[i].e == e ==> more[i].Called? {
      assert i > 0 ==> more[i] == entries[i - 1];
    }
    LifeIsLater(log, more, e);
    assert log + [Called(c.e)] + entries == log + more;
  }

  /** Calls whose scripts do not name an event leave it alive. */
  lemma {:induction false} CallsSpare(log: seq<Entry>, calls: seq<Call>, scripts: seq<seq<Order>>, e: Evt)
    requires LifeOf(log, e).Alive? && Unnamed(e, scripts)
    ensures Outlives(LifeOf(log, e), LifeOf(LogAfter(log, calls, scripts), e))
    decreases |calls|
  {
    if calls != [] {
      var k := |calls| - 1;
      CallsSpare(log, calls[..k], scripts, e);
      CallSpares(LogAfter(log, calls[..k], scripts), calls[k], ScriptAt(scripts, k), e);
    }
  }

  lemma {:induction false} SameStops(script: seq<Order>, a: seq<bool>, b: seq<bool>, at: nat)
    requires |script| <= |a| <= |b| && b[..|a|] == a
    ensures EntriesOf(script, a, at) == EntriesOf(script, b, at)
    decreases |script|
  {
    if script != [] {
      var k := |script| - 1;
      SameStops(script[..k], a, b, at);
      assert b[k] == b[..|a|][k] == a[k];
    }
  }

  lemma OneMoreEntry(log: seq<Entry>, script: seq<Order>, stops: seq<bool>, stop: bool, i: nat, at: nat)
    requires i < |script| && |stops| == i
    ensures log + EntriesOf(script[..i], stops, at) + EntryOf(script[i], stop, at)
      == log + EntriesOf(script[..i + 1], stops + [stop], at)
  {
    assert script[..i + 1][..i] == script[..i];
    SameStops(script[..i], stops, stops + [stop], at);
    assert log + EntriesOf(script[..i], stops, at) + EntryOf(script[i], stop, at)
      == log + (EntriesOf(script[..i], stops, at) + EntryOf(script[i], stop, at));
  }

  /** An event is as it was, or not running and owed nothing. */
  ghost predicate Spared(before: Rec, after: Rec) {
    after == before || (!after.running && after.owed == 0)
  }

  lemma StepAhead(now: Word, millisec: Word, interval: nat)
    requires Ahead(now, millisec) < HALF && 0 < interval < HALF
    ensures var a := Ahead(now, (millisec + interval) % WORD);
      if Ahead(now, millisec) >= interval then a == Ahead(now, millisec) - interval else a >= HALF
  {
  }

  /** What there is to keep in order. */
  datatype Side = OfCore | OfFields | OfPlans | OfClock

  class Manager {
    const core: Core
    const interval: nat
    /** 32-bit words; `current` does not wrap, which the callers see to. */
    var current: nat
    var millisec: nat
    var jiffies: nat
    /** The event that a node is part of, which the node points to. */
    const owner: map<Node, Evt>

    ghost const evts: set<Evt>
    /** An upper bound for periods. */
    ghost const longest: nat
    ghost var book: map<Evt, Rec>
    ghost var log: seq<Entry>
    /** The number of ticks run, and when the last one begun was. */
    ghost var tick: nat
    ghost var last: int

    ghost function Now(): Clock
      reads `current, `tick, `last
    {
      Clock(interval, current, tick, last, longest)
    }

    ghost predicate Has(s: Side, inside: bool, busy: Busy)
      reads this, core, core.repr, evts
    {
      match s
      case OfCore => core.Ready() && core.time == tick + (if inside then 1 else 0)
      case OfFields => Fields(book, evts).Sound?
      case OfPlans => Owners(owner, evts, core.timers).Sound? && Plan(evts, book, core.due, Now(), busy, log).Sound?
      case OfClock =>
        && Now().Valid() && jiffies == tick % WORD && current + longest + interval < WORD
        && last == current - (if inside then 0 else interval)
    }

    ghost function Held(inside: bool, busy: Busy): Verdict
      reads this, core, core.repr, evts
    {
      if forall s {:trigger Has(s, inside, busy)} :: Has(s, inside, busy) then Sound else Broken
    }

    /** What holds between ticks, and inside the callbacks of one: there the core is a tick ahead,
        and the tick is the last one begun. */
    ghost predicate Holding(inside: bool, busy: Busy)
      reads this, core, core.repr, evts
    {
      Held(inside, busy).Sound?
    }

    lemma Sides(inside: bool, busy: Busy)
      requires Holding(inside, busy)
      ensures core.Ready() && core.time == tick + (if inside then 1 else 0)
      ensures Fields(book, evts).Sound? && Owners(owner, evts, core.timers).Sound?
      ensures Plan(evts, book, core.due, Now(), busy, log).Sound?
      ensures Now().Valid() && jiffies == tick % WORD && current + longest + interval < WORD
      ensures last == current - (if inside then 0 else interval)
    {
      assert Has(OfCore, inside, busy) && Has(OfFields, inside, busy);
      assert Has(OfPlans, inside, busy) && Has(OfClock, inside, busy);
    }

    /** itimer_mgr_init, for events prepared by itimer_evt_init. */
    constructor (start: nat, step: nat, owner: map<Node, Evt>, ghost evts: set<Evt>, ghost longest: nat)
      requires start + longest + step + 1 < WORD && Owners(owner, evts, owner.Keys).Sound?
      requires forall n {:trigger IsInit(n)} | n in owner.Keys :: IsInit(n)
      requires forall e {:trigger IsNew(e)} | e in evts :: IsNew(e)
      ensures Holding(false, Nobody) && core.shape.Local() == [] && log == []
      ensures fresh(core) && fresh(core.repr - owner.Keys)
      ensures this.owner == owner && this.evts == evts && this.longest == longest
      ensures current == start && interval == (if step < 1 then 1 else step) && millisec == 0
    {
      current := start;
      interval := if step < 1 then 1 else step;
      jiffies, millisec := 0, 0;
      core := new Core(0, owner.Keys);
      this.owner, this.evts, this.longest := owner, evts, longest;
      book := map e | e in evts :: Rec(0, 0, 0, false, false, 0, 0, 0, 0, false);
      log, tick, last := [], 0, start - if step < 1 then 1 else step;
      new;
      forall e | e in evts ensures Mirrored(book, e) && PlanAt(e, book, core.due, Now(), Nobody, log) {
        assert IsNew(e);
      }
    }

    /** Taking note of what has been done to an event. */
    ghost method Note(book': map<Evt, Rec>, log': seq<Entry>, inside: bool, busy: Busy)
      requires core.Ready() && core.time == tick + (if inside then 1 else 0)
      requires Fields(book', evts).Sound? && Owners(owner, evts, core.timers).Sound?
      requires Plan(evts, book', core.due, Now(), busy, log').Sound?
      requires Now().Valid() && jiffies == tick % WORD && current + longest + interval < WORD
      requires last == current - (if inside then 0 else interval)
      modifies `book, `log
      ensures Holding(inside, busy) && book == book' && log == log'
    {
      book, log := book', log';
    }

    /** Taking out the node of an event, if it is started. */
    method Unhook(e: Evt)
      requires core.Ready() && e.node in core.timers && (e.started <==> e.node in core.due)
      modifies core`shape, core`data, core`due, core`trace, core.repr
      ensures core.Ready() && core.due == old(core.due) - {e.node} && core.Keeps(old(core.shape.Local()))
    {
      if e.started {
        var _ := core.NodeDel(e.node);
      } else {
        assert core.due - {e.node} == core.due;
      }
    }

    /** itimer_evt_stop */
    method StopEvt(e: Evt, ghost inside: bool, ghost busy: Busy)
      requires Holding(inside, busy) && e in evts
      modifies e, `book, `log, core`shape, core`data, core`due, core`trace, core.repr
      ensures Holding(inside, busy) && core.Keeps(old(core.shape.Local()))
      ensures log == old(log) + [Stopped(e)]
      ensures book == old(book)[e := RecOf(old(book), e).Halted()]
    {
      Sides(inside, busy);
      PlanAtOf(e, evts, book, core.due, Now(), busy, log);
      FieldsOf(e, book, evts);
      OwnersOf(e, owner, core.timers, evts);
      PlanStop(e, owner, core.timers, evts, book, core.due, Now(), busy, log);
      Unhook(e);
      e.Clear(book, evts);
      Note(book[e := RecOf(book, e).Halted()], log + [Stopped(e)], inside, busy);
    }

    /** Adding the node of an event for the next period. */
    method Arm(e: Evt, ghost inside: bool) returns (ghost due: nat)
      requires core.Ready() && core.time == tick + (if inside then 1 else 0) && e.node in core.timers
      requires Now().Valid() && jiffies == tick % WORD && e.slap > current
      modifies core`shape, core`data, core`due, core`trace, core.repr
      ensures core.Ready() && core.due == old(core.due)[e.node := due] && core.Keeps(old(core.shape.Local()))
      ensures Now().At(due) - interval < e.slap
    {
      WaitIsPrompt(Now(), e.slap, inside);
      var expires := Wait(e.slap, current, interval);
      due := tick + expires;
      core.NodeAdd(e.node, (jiffies + expires) % WORD);
    }

    /** itimer_evt_start */
    method StartEvt(e: Evt, period: nat, repeat: int, ghost inside: bool, ghost busy: Busy)
      requires Holding(inside, busy) && e in evts && 0 < period <= longest
      modifies e, `book, `log, core`shape, core`data, core`due, core`trace, core.repr
      ensures Holding(inside, busy) && core.Keeps(old(core.shape.Local()))
      ensures log == old(log) + (if old(e.started) then [Stopped(e)] else []) + [Started(e, current, period, repeat)]
      ensures book == old(book)[e := Rec.Begun(current, period, repeat)]
    {
      if e.started {
        StopEvt(e, inside, busy);
      }
      Launch(e, period, repeat, inside, busy);
    }

    method Launch(e: Evt, period: nat, repeat: int, ghost inside: bool, ghost busy: Busy)
      requires Holding(inside, busy) && e in evts && 0 < period <= longest
      modifies e, `book, `log, core`shape, core`data, core`due, core`trace, core.repr
      ensures Holding(inside, busy) && core.Keeps(old(core.shape.Local()))
      ensures log == old(log) + [Started(e, current, period, repeat)]
      ensures book == old(book)[e := Rec.Begun(current, period, repeat)]
    {
      Sides(inside, busy);
      OwnersOf(e, owner, core.timers, evts);
      e.Begin(current, period, repeat, book, evts);
      ghost var due := Arm(e, inside);
      PlanStart(e, owner, core.timers, evts, book, old(core.due), Now(), busy, log, period, repeat, due);
      Note(
        book[e := Rec.Begun(current, period, repeat)], log + [Started(e, current, period, repeat)], inside, busy);
    }

    /** Adding the node of an event that has just fired again, or leaving it. */
    method ArmOrStop(e: Evt, stop: bool) returns (ghost due: nat)
      requires core.Ready() && core.time == tick + 1 && e.node in core.timers && e.node !in core.due
      requires Now().Valid() && jiffies == tick % WORD && (!stop ==> e.slap > current)
      modifies core`shape, core`data, core`due, core`trace, core.repr
      ensures core.Ready() && core.Keeps(old(core.shape.Local()))
      ensures core.due == if stop then old(core.due) else old(core.due)[e.node := due]
      ensures !stop ==> Now().At(due) - interval < e.slap
    {
      due := 0;
      if !stop {
        due := Arm(e, true);
      } else {
        var _ := core.NodeDel(e.node);
        assert old(core.due) - {e.node} == old(core.due);
      }
    }

    /** The part of itimer_evt_cb before the calls, when the node of `e` has just fired. */
    method Rearm(e: Evt) returns (count: nat)
      requires core.Ready() && core.time == tick + 1 && e in evts && e.node !in core.due
      requires Fields(book, evts).Sound? && Owners(owner, evts, core.timers).Sound?
      requires Plan(evts, book, core.due[e.node := tick], Now(), Nobody, log).Sound?
      requires Now().Valid() && jiffies == tick % WORD && current + longest + interval < WORD && last == current
      modifies e, `book, `log, core`shape, core`data, core`due, core`trace, core.repr
      ensures Holding(true, Just(e)) && core.Keeps(old(core.shape.Local())) && log == old(log)
      ensures var r := RecOf(book, e); r.running && r.owed == count && (r.started || r.finished)
    {
      PlanAtOf(e, evts, book, core.due[e.node := tick], Now(), Nobody, log);
      OwnersOf(e, owner, core.timers, evts);
      var stop: bool;
      ghost var r: Rec;
      count, stop, r := e.Advance(current, Now(), book, evts);
      ghost var due := ArmOrStop(e, stop);
      PlanFire(e, owner, core.timers, evts, book, old(core.due), Now(), log, r, stop, tick, due);
      e.Mark(true, stop, book[e := r], evts, r.Calling(stop));
      Note(book[e := r][e := r.Calling(stop)], log, true, Just(e));
    }

    // ----- Callbacks --------------------------------------------------------------------------

    /** What a user callback does to one event. */
    method Obey(o: Order, ghost busy: Busy) returns (ghost stop: bool)
      requires Holding(true, busy) && Proper(evts, longest, o)
      modifies evts, `book, `log, core`shape, core`data, core`due, core`trace, core.repr
      ensures Holding(true, busy) && core.Keeps(old(core.shape.Local()))
      ensures busy.Just? ==> Spared(RecOf(old(book), busy.e), RecOf(book, busy.e))
      ensures log == old(log) + EntryOf(o, stop, current)
    {
      stop := o.e.started;
      match o {
        case Start(e, period, repeat) => StartEvt(e, period, repeat, true, busy);
        case Stop(e) => StopEvt(e, true, busy);
      }
    }

    /** A user callback: one order after the other. */
    method ObeyAll(script: seq<Order>, ghost busy: Busy) returns (ghost stops: seq<bool>)
      requires Holding(true, busy) && AllProper(evts, longest, script)
      modifies evts, `book, `log, core`shape, core`data, core`due, core`trace, core.repr
      ensures Holding(true, busy) && core.Keeps(old(core.shape.Local()))
      ensures busy.Just? ==> Spared(RecOf(old(book), busy.e), RecOf(book, busy.e))
      ensures log == old(log) + EntriesOf(script, stops, current)
    {
      var i := 0;
      stops := [];
      while i < |script|
        invariant i <= |script| && Holding(true, busy) && core.Keeps(old(core.shape.Local()))
        invariant busy.Just? ==> Spared(RecOf(old(book), busy.e), RecOf(book, busy.e))
        invariant |stops| == i && log == old(log) + EntriesOf(script[..i], stops, current)
      {
        assert Proper(evts, longest, script[i]);
        ghost var stop := Obey(script[i], busy);
        OneMoreEntry(old(log), script, stops, stop, i, current);
        stops := stops + [stop];
        i := i + 1;
      }
      assert script[..i] == script;
    }

    method IsRunning(e: Evt, ghost busy: Busy) returns (b: bool)
      requires Holding(true, busy) && e in evts
      ensures b == RecOf(book, e).running
    {
      Sides(true, busy);
      FieldsOf(e, book, evts);
      b := e.running;
    }

    /** A call is made. */
    ghost method Pay(e: Evt)
      requires Holding(true, Just(e)) && e in evts && RecOf(book, e).owed > 0
      requires RecOf(book, e).started || RecOf(book, e).finished
      modifies `book, `log
      ensures Holding(true, Just(e)) && book == old(book)[e := RecOf(old(book), e).Paid()]
      ensures log == old(log) + [Called(e)]
    {
      Sides(true, Just(e));
      PlanAtOf(e, evts, book, core.due, Now(), Just(e), log);
      PlanCall(e, owner, core.timers, evts, book, core.due, Now(), log);
      FieldsPaid(e, book, evts);
      Note(book[e := RecOf(book, e).Paid()], log + [Called(e)], true, Just(e));
    }

    /** The loop of itimer_evt_cb that makes the calls; the k-th one runs the k-th script, if there is
        one. */
    method MakeCalls(
        e: Evt, count: nat, scripts: seq<seq<Order>>)
      returns (left: seq<seq<Order>>, ghost calls: seq<Call>)
      requires Holding(true, Just(e)) && e in evts && AllScripts(evts, longest, scripts)
      requires var r := RecOf(book, e); r.running && r.owed == count && (r.started || r.finished)
      modifies evts, `book, `log, core`shape, core`data, core`due, core`trace, core.repr
      ensures Holding(true, Just(e)) && core.Keeps(old(core.shape.Local())) && RecOf(book, e).owed == 0
      ensures Account(old(log), log, calls, scripts, left, current, current).Sound?
    {
      left, calls := scripts, [];
      AccountStarts(log, scripts, current, current);
      var c := count;
      while c > 0
        invariant Holding(true, Just(e)) && core.Keeps(old(core.shape.Local()))
        invariant Account(old(log), log, calls, scripts, left, current, current).Sound?
        invariant var r := RecOf(book, e); if r.running then r.owed == c && (r.started || r.finished) else r.owed == 0
      {
        var running := IsRunning(e, Just(e));
        if !running {
          break;
        }
        AccountProper(evts, longest, old(log), log, calls, scripts, left, current, current);
        ghost var before, was := log, left;
        ghost var call;
        left, call := MakeCall(e, left);
        AccountOne(old(log), before, calls, call, scripts, was, current, current);
        calls := calls + [call];
        c := c - 1;
      }
    }

    /** One call, which runs the first script, if there is one. */
    method MakeCall(e: Evt, scripts: seq<seq<Order>>) returns (left: seq<seq<Order>>, ghost call: Call)
      requires Holding(true, Just(e)) && e in evts && AllScripts(evts, longest, scripts)
      requires var r := RecOf(book, e); r.owed > 0 && (r.started || r.finished)
      modifies evts, `book, `log, core`shape, core`data, core`due, core`trace, core.repr
      ensures Holding(true, Just(e)) && core.Keeps(old(core.shape.Local()))
      ensures Spared(RecOf(old(book), e).Paid(), RecOf(book, e))
      ensures log == old(log) + [Called(call.e)] + EntriesOf(ScriptAt(scripts, 0), call.stops, call.at)
      ensures call.e == e && call.at == current && left == Left(scripts, 1)
    {
      Pay(e);
      left := scripts;
      ghost var stops := [];
      if left != [] {
        assert AllProper(evts, longest, left[0]);
        stops := ObeyAll(left[0], Just(e));
        left := left[1..];
      } else {
        assert log + [] == log;
      }
      call := Call(e, current, stops);
    }

    /** itimer_evt_cb, when the node of `e` has just fired. */
    method Callback(e: Evt, scripts: seq<seq<Order>>) returns (left: seq<seq<Order>>, ghost calls: seq<Call>)
      requires core.Ready() && core.time == tick + 1 && e in evts && e.node !in core.due
      requires Fields(book, evts).Sound? && Owners(owner, evts, core.timers).Sound?
      requires Plan(evts, book, core.due[e.node := tick], Now(), Nobody, log).Sound?
      requires Now().Valid() && jiffies == tick % WORD && current + longest + interval < WORD && last == current
      requires AllScripts(evts, longest, scripts)
      modifies evts, `book, `log, core`shape, core`data, core`due, core`trace, core.repr
      ensures Holding(true, Nobody) && core.Keeps(old(core.shape.Local()))
      ensures Account(old(log), log, calls, scripts, left, current, current).Sound?
    {
      var count := Rearm(e);
      left, calls := MakeCalls(e, count, scripts);
      Rest(e);
    }

    /** The end of itimer_evt_cb. */
    method Rest(e: Evt)
      requires Holding(true, Just(e)) && e in evts && RecOf(book, e).owed == 0
      modifies e, `book, `log
      ensures Holding(true, Nobody) && log == old(log)
    {
      Sides(true, Just(e));
      PlanOver(e, owner, core.timers, evts, book, core.due, Now(), log);
      e.Mark(false, false, book, evts, RecOf(book, e).(running := false));
      Note(book[e := RecOf(book, e).(running := false)], log, true, Nobody);
    }

    // ----- Running ----------------------------------------------------------------------------

    /** The body of the firing loop of itimer_internal_update. */
    method FireOne(n: Node, scripts: seq<seq<Order>>) returns (left: seq<seq<Order>>, ghost calls: seq<Call>)
      requires Holding(true, Nobody) && AllScripts(evts, longest, scripts)
      requires n in core.timers && n in core.shape.at && core.shape.at[n] == QUEUED && n in core.shape.Local()
      modifies evts, `book, `log, core`shape, core`data, core`due, core`trace, core.repr
      ensures Holding(true, Nobody) && Account(old(log), log, calls, scripts, left, current, current).Sound?
      ensures core.Keeps(old(core.shape.Local())) && |core.shape.Local()| < |old(core.shape.Local())|
    {
      Sides(true, Nobody);
      OwnedBy(n, owner, core.timers, evts);
      var e := owner[n];
      core.Expire(n);
      left, calls := Callback(e, scripts);
    }

    /** The start of a tick: from now on the core is ahead. */
    method BeginTick() returns (q: Node)
      requires Holding(false, Nobody) && core.shape.Local() == []
      modifies `last, core`jiffies, core`shape, core`data, core`repr, core`done, core`width, core`time, core.repr
      ensures Holding(true, Nobody)
      ensures core.shape.Local() != [] && core.shape.Local()[0] == q
      ensures fresh(core.repr - old(core.repr)) && old(core.repr) <= core.repr
    {
      Sides(false, Nobody);
      PlanBegun(evts, book, core.due, Now(), Nobody, log);
      q := core.BeginTick();
      last := current;
    }

    method First(q: Node) returns (n: Node)
      requires Holding(true, Nobody) && core.shape.Local() != [] && core.shape.Local()[0] == q
      ensures n == q <==> |core.shape.Local()| == 1
      ensures n != q ==>
        n in core.timers && n in core.shape.at && core.shape.at[n] == QUEUED && n in core.shape.Local()
    {
      Sides(true, Nobody);
      n := core.First(q);
    }

    /** The local list is empty and goes. */
    ghost method EndTick(q: Node)
      requires Holding(true, Nobody) && |core.shape.Local()| == 1 && core.shape.Local()[0] == q
      modifies core`shape, core`width
      ensures Holding(true, Nobody) && core.shape.Local() == []
    {
      Sides(true, Nobody);
      core.CloseList(q);
    }

    /** The firing loop of itimer_internal_update. */
    method FireAll(q: Node, scripts: seq<seq<Order>>) returns (left: seq<seq<Order>>, ghost calls: seq<Call>)
      requires Holding(true, Nobody) && AllScripts(evts, longest, scripts)
      requires core.shape.Local() != [] && core.shape.Local()[0] == q
      modifies evts, `book, `log, core`shape, core`data, core`due, core`trace, core.repr
      ensures Holding(true, Nobody) && |core.shape.Local()| == 1 && core.shape.Local()[0] == q
      ensures Account(old(log), log, calls, scripts, left, current, current).Sound?
    {
      AccountStarts(log, scripts, current, current);
      left, calls := scripts, [];
      var n := First(q);
      while n != q
        invariant Holding(true, Nobody) && Account(old(log), log, calls, scripts, left, current, current).Sound?
        invariant core.shape.Local() != [] && core.shape.Local()[0] == q && (n == q <==> |core.shape.Local()| == 1)
        invariant n != q ==>
          n in core.timers && n in core.shape.at && core.shape.at[n] == QUEUED && n in core.shape.Local()
        decreases |core.shape.Local()|
      {
        n, left, calls := FireNext(n, q, left, old(log), calls, scripts);
      }
    }

    /** itimer_core_run(&mgr->core, mgr->jiffies): the core is at that tick, and by NextTickIsGoal its loop runs
        just this one. */
    method CoreRun(scripts: seq<seq<Order>>) returns (left: seq<seq<Order>>, ghost calls: seq<Call>)
      requires Holding(false, Nobody) && core.shape.Local() == [] && AllScripts(evts, longest, scripts)
      modifies evts, `book, `log, `last
      modifies core`jiffies, core`shape, core`data, core`repr, core`done, core`width, core`time, core`due, core`trace
      modifies core.repr
      ensures Holding(true, Nobody) && core.shape.Local() == []
      ensures fresh(core.repr - old(core.repr)) && old(core.repr) <= core.repr
      ensures Account(old(log), log, calls, scripts, left, current, current).Sound?
      ensures old(jiffies == core.time % WORD) && core.time == Goal(old(core.time) % WORD, old(core.time))
    {
      Sides(false, Nobody);
      NextTickIsGoal(core.time);
      var q := BeginTick();
      left, calls := FireAll(q, scripts);
      EndTick(q);
      Sides(true, Nobody);
    }

    /** One round of the firing loop, and the account of the whole tick so far. */
    method FireNext(
        n: Node, q: Node, left: seq<seq<Order>>, ghost was: seq<Entry>, ghost calls: seq<Call>,
        ghost scripts: seq<seq<Order>>)
      returns (next: Node, rest: seq<seq<Order>>, ghost all: seq<Call>)
      requires Holding(true, Nobody) && AllScripts(evts, longest, scripts)
      requires core.shape.Local() != [] && core.shape.Local()[0] == q && n != q
      requires Account(was, log, calls, scripts, left, current, current).Sound?
      requires n in core.timers && n in core.shape.at && core.shape.at[n] == QUEUED && n in core.shape.Local()
      modifies evts, `book, `log, core`shape, core`data, core`due, core`trace, core.repr
      ensures Holding(true, Nobody) && Account(was, log, all, scripts, rest, current, current).Sound?
      ensures |core.shape.Local()| < |old(core.shape.Local())| && core.shape.Local() != []
      ensures core.shape.Local()[0] == q && (next == q <==> |core.shape.Local()| == 1)
      ensures next != q ==>
        && next in core.timers && next in core.shape.at && core.shape.at[next] == QUEUED
        && next in core.shape.Local()
    {
      AccountProper(evts, longest, was, log, calls, scripts, left, current, current);
      ghost var more;
      rest, more := FireOne(n, left);
      AccountMore(was, old(log), log, calls, more, scripts, left, rest, current, current, current, current);
      all := calls + more;
      next := First(q);
    }

    /** The rest of the loop of itimer_mgr_run. */
    method NextTick(ghost now: Word)
      requires Holding(true, Nobody) && core.shape.Local() == [] && current + 2 * interval + longest < WORD
      requires millisec < WORD && Ahead(now, millisec) < HALF && interval < HALF
      modifies `jiffies, `current, `millisec, `tick
      ensures Holding(false, Nobody) && core.shape.Local() == [] && current == old(current) + interval
      ensures millisec < WORD && interval > 0
      ensures var before, after := old(Ahead(now, millisec)), Ahead(now, millisec);
        if before >= interval then after == before - interval else after >= HALF
    {
      Sides(true, Nobody);
      PlanEnded(evts, book, core.due, Now(), Nobody, log);
      NextWord(tick);
      StepAhead(now, millisec, interval);
      jiffies := (jiffies + 1) % WORD;
      current := (current + interval) % WORD;
      millisec := (millisec + interval) % WORD;
      tick := tick + 1;
    }

    /** The resynchronisation of itimer_mgr_run after a jump of the system time. */
    method Resync(now: Word)
      requires Holding(false, Nobody) && millisec < WORD && LIMIT + 64 * interval < HALF
      modifies `millisec
      ensures Holding(false, Nobody) && millisec < WORD
      ensures Ahead(now, millisec) < HALF ==> Ahead(now, millisec) <= LIMIT + 64 * interval
    {
      Sides(false, Nobody);
      var diff := Ahead(now, millisec);
      var jumped := if diff < HALF then diff > LIMIT + 64 * interval else WORD - diff > LIMIT + 64 * interval;
      millisec := if jumped then now else millisec;
    }

    /** itimer_mgr_run */
    method Run(now: Word, scripts: seq<seq<Order>>) returns (ghost calls: seq<Call>)
      requires Holding(false, Nobody) && core.shape.Local() == [] && AllScripts(evts, longest, scripts)
      requires millisec < WORD && LIMIT + 64 * interval < HALF
      requires current + LIMIT + 67 * interval + longest < WORD
      modifies evts, `book, `log, `last, `jiffies, `current, `millisec, `tick
      modifies core`jiffies, core`shape, core`data, core`repr, core`done, core`width, core`time, core`due, core`trace
      modifies core.repr
      ensures Holding(false, Nobody) && core.shape.Local() == [] && millisec < WORD
      ensures Ahead(now, millisec) >= HALF && old(current) <= current <= old(current) + LIMIT + 65 * interval
      ensures log == LogAfter(old(log), calls, scripts) && CalledWithin(calls, old(current), current)
      ensures fresh(core.repr - old(core.repr)) && old(core.repr) <= core.repr
    {
      AccountStarts(log, scripts, current, current);
      Resync(now);
      var left := scripts;
      calls := [];
      ghost var most := current + LIMIT + 65 * interval;
      while Ahead(now, millisec) < HALF
        invariant Holding(false, Nobody) && core.shape.Local() == []
        invariant Account(old(log), log, calls, scripts, left, old(current), current).Sound?
        invariant millisec < WORD && fresh(core.repr - old(core.repr)) && old(core.repr) <= core.repr
        invariant current + (if Ahead(now, millisec) < HALF then Ahead(now, millisec) + interval else 0) <= most
        invariant old(current) <= current
        decreases if Ahead(now, millisec) < HALF then Ahead(now, millisec) + 1 else 0
      {
        AccountProper(evts, longest, old(log), log, calls, scripts, left, old(current), current);
        ghost var before, was, more, c := log, left, calls, current;
        left, more := CoreRun(left);
        NextTick(now);
        AccountMore(old(log), before, log, calls, more, scripts, was, left, old(current), c, c, current) by {
          AccountWider(before, log, more, was, left, c, c, current);
        }
        calls := calls + more;
      }
    }

    /** Between ticks: an event that its user started at time c0, with a period p, and has not stopped
        since, has had its callback called just floor((c - c0) / p) times, where c is the time of the
        last tick, or `repeat` times if that is positive and less. */
    lemma NeitherEarlyNorLate(e: Evt)
      requires Holding(false, Nobody) && core.shape.Local() == [] && e in evts
      ensures var l, c := LifeOf(log, e), current - interval; l.Alive? ==>
        && l.period > 0
        && var n := if c < l.at then 0 else (c - l.at) / l.period;
           l.calls == if 0 < l.repeat < n then l.repeat else n
    {
      Sides(false, Nobody);
      core.NoneIsLate();
      CallsFollowTheClock(e, evts, book, core.due, Now(), log);
    }
  }
}
