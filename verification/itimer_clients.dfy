/** What users of the timer wheel and of its manager can rely on, from the contracts of their operations alone. */
module TimerClients {
  import opened TimerRing
  import opened TimerPlace
  import opened TimerSet
  import Core = TimerCore
  import opened TimerClock
  import opened TimerPlan
  import Manager = TimerManager

  /** One call of itimer_core_run: up to which tick, and what the callbacks do. */
  datatype Round = Round(until: Word, scripts: seq<seq<Core.Command>>)

  /** The callbacks are about initialised timers, but not about n. */
  ghost predicate SparesTimer(timers: set<Node>, n: Node, r: Round) {
    Core.AllAllowed(timers, r.scripts) && Core.Unnamed(n, r.scripts)
  }

  /** A timer that is added and then left to itself, while the wheel is run any number of times, fires exactly
      once, in the next tick with its expiry, as soon as that tick has been run. */
  method AddAndRun(c: Core.Core, n: Node, expires: Word, rounds: seq<Round>) returns (ghost at: nat)
    requires c.Ready() && c.shape.Local() == [] && n in c.timers
    requires forall i | 0 <= i < |rounds| :: SparesTimer(c.timers, n, rounds[i])
    modifies c, c.repr
    ensures c.Ready() && c.shape.Local() == []
    ensures var tick, k := DueTick(expires, old(c.time)), |old(c.trace)|;
      && old(c.trace) + [Armed(n, tick)] <= c.trace
      && (c.time <= tick ==>
            n in c.due && c.due[n] == tick && forall i {:trigger c.trace[i]} | k < i < |c.trace| :: c.trace[i].n != n)
      && (tick < c.time ==>
            && k < at < |c.trace| && c.trace[at] == Fired(n, tick) && n !in c.due
            && forall i {:trigger c.trace[i]} | k < i < |c.trace| && i != at :: c.trace[i].n != n)
  {
    ghost var tick, k := DueTick(expires, c.time), |c.trace|;
    c.NodeAdd(n, expires);
    var i := 0;
    while i < |rounds|
      invariant 0 <= i <= |rounds| && c.Ready() && c.shape.Local() == [] && fresh(c.repr - old(c.repr))
      invariant old(c.trace) + [Armed(n, tick)] <= c.trace && LeftAlone(c.trace, n, k + 1)
    {
      assert SparesTimer(c.timers, n, rounds[i]);
      ghost var before := c.Now();
      ghost var fired := c.Update(rounds[i].until, rounds[i].scripts);
      Core.FiringsLeaveAlone(before, fired, rounds[i].scripts, n, k + 1);
      i := i + 1;
    }
    assert c.trace[k] == (old(c.trace) + [Armed(n, tick)])[k];
    at := c.FiresInItsTick(n, tick, k);
  }

  /** One call of itimer_mgr_run. */
  datatype Visit = Visit(now: Word, scripts: seq<seq<Manager.Order>>)

  ghost predicate SparesEvent(evts: set<Evt>, longest: nat, e: Evt, v: Visit) {
    Manager.AllScripts(evts, longest, v.scripts) && Manager.Unnamed(e, v.scripts)
  }

  /** How far the clock of a manager can get in some visits. */
  function Reach(visits: nat, interval: nat): nat {
    if visits == 0 then 0 else Reach(visits - 1, interval) + Manager.LIMIT + 65 * interval
  }

  /** An event that is started and then left to itself, while the manager is run any number of times, is called
      exactly once for every whole period from its start to the last tick, or `repeat` times if that is
      positive and less. */
  method StartAndRun(m: Manager.Manager, e: Evt, period: nat, repeat: int, visits: seq<Visit>)
    requires m.Holding(false, Nobody) && m.core.shape.Local() == [] && e in m.evts && 0 < period <= m.longest
    requires forall i | 0 <= i < |visits| :: SparesEvent(m.evts, m.longest, e, visits[i])
    requires m.millisec < WORD && Manager.LIMIT + 64 * m.interval < HALF
    requires m.current + Reach(|visits|, m.interval) + 2 * m.interval + m.longest < WORD
    modifies m, m.evts, m.core, m.core.repr
    ensures m.Holding(false, Nobody) && m.core.shape.Local() == []
    ensures var c0, c := old(m.current), m.current - m.interval; var n := if c < c0 then 0 else (c - c0) / period;
      LifeOf(m.log, e) == Alive(c0, period, repeat, if 0 < repeat < n then repeat else n)
  {
    ghost var start := Alive(m.current, period, repeat, 0);
    Start(m, e, period, repeat);
    var i := 0;
    while i < |visits|
      invariant 0 <= i <= |visits| && m.Holding(false, Nobody) && m.core.shape.Local() == [] && m.millisec < WORD
      invariant fresh(m.core.repr - old(m.core.repr))
      invariant m.current + Reach(|visits| - i, m.interval) + 2 * m.interval + m.longest < WORD
      invariant Manager.Outlives(start, LifeOf(m.log, e))
    {
      assert SparesEvent(m.evts, m.longest, e, visits[i]);
      Visited(m, e, visits[i], start);
      i := i + 1;
    }
    m.NeitherEarlyNorLate(e);
  }

  method Start(m: Manager.Manager, e: Evt, period: nat, repeat: int)
    requires m.Holding(false, Nobody) && m.core.shape.Local() == [] && e in m.evts && 0 < period <= m.longest
    modifies m`book, m`log, m.evts, m.core, m.core.repr
    ensures m.Holding(false, Nobody) && m.core.shape.Local() == [] && m.core.repr == old(m.core.repr)
    ensures LifeOf(m.log, e) == Alive(m.current, period, repeat, 0)
  {
    m.StartEvt(e, period, repeat, false, Nobody);
    JustStarted(m.log, e, Alive(m.current, period, repeat, 0));
  }

  method Visited(m: Manager.Manager, e: Evt, v: Visit, ghost start: Life)
    requires m.Holding(false, Nobody) && m.core.shape.Local() == [] && e in m.evts
    requires SparesEvent(m.evts, m.longest, e, v) && m.millisec < WORD && Manager.LIMIT + 64 * m.interval < HALF
    requires m.current + Manager.LIMIT + 67 * m.interval + m.longest < WORD
    requires Manager.Outlives(start, LifeOf(m.log, e))
    modifies m, m.evts, m.core, m.core.repr
    ensures m.Holding(false, Nobody) && m.core.shape.Local() == [] && m.millisec < WORD
    ensures m.current <= old(m.current) + Manager.LIMIT + 65 * m.interval
    ensures fresh(m.core.repr - old(m.core.repr)) && Manager.Outlives(start, LifeOf(m.log, e))
  {
    ghost var calls := m.Run(v.now, v.scripts);
    Manager.CallsSpare(old(m.log), calls, v.scripts, e);
  }

  lemma JustStarted(log: seq<Entry>, e: Evt, start: Life)
    requires log != [] && start.Alive? && start.calls == 0
    requires log[|log| - 1] == Started(e, start.at, start.period, start.repeat)
    ensures LifeOf(log, e) == start
  {
  }
}
