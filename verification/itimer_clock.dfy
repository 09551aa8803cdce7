/** The arithmetic of the timer manager of timer_wheel/itimer.c: milliseconds, ticks and periods. */
module TimerClock {
  import opened TimerPlace

  const FAR: nat := 0x7000_0000

  /** The manager's clock: tick number `tick` happens at `current`, the last one begun happened at
      `last`; times are milliseconds. */
  datatype Clock = Clock(interval: nat, current: nat, tick: nat, last: int, longest: nat) {
    ghost predicate Valid() {
      interval > 0 && last <= current
    }

    /** When a tick, past or to come, happens. */
    ghost function At(t: int): int {
      current + interval * (t - tick)
    }

    ghost function Begun(): Clock {
      this.(last := current)
    }

    ghost function Ended(): Clock {
      this.(current := current + interval, tick := tick + 1)
    }
  }

  /** An event: its fields, and since it was last started: when and for how many calls that was, the
      calls made and those the running callback still owes, and whether the last call is over. */
  datatype Rec = Rec(
    period: nat, slap: nat, repeat: int, running: bool, started: bool,
    base: nat, target: int, calls: nat, owed: nat, finished: bool)
  {
    ghost function Slots(): nat { calls + owed }

    /** Every call was due by now; the next one is due at slap. */
    ghost predicate Accounted(k: Clock) {
      && !(started && finished)
      && (started || finished ==>
            && 0 < period <= k.longest
            && (Slots() > 0 ==> base + period * Slots() <= k.last))
      && (started ==>
            && slap == base + period * (Slots() + 1)
            && (if target > 0 then repeat == target - Slots() && repeat >= 1 else repeat == target))
      && (finished ==> target > 0 && Slots() == target)
    }

    /** The node is to fire before, or in, the first tick at or after slap. */
    ghost predicate Prompt(k: Clock, due: nat) {
      k.At(due) - k.interval < slap
    }

    /** Started. */
    static ghost function Begun(current: nat, period: nat, repeat: int): Rec {
      Rec(period, current + period, repeat, false, true, current, repeat, 0, 0, false)
    }

    /** One more period has passed. */
    ghost function Due(): Rec {
      this.(slap := slap + period, owed := owed + 1, repeat := if repeat > 1 then repeat - 1 else repeat)
    }

    /** About to make the calls owed, all those asked for or not. */
    ghost function Calling(stop: bool): Rec {
      this.(running := true, started := !stop, finished := stop)
    }

    /** One call made. */
    ghost function Paid(): Rec
      requires owed > 0
    {
      this.(calls := calls + 1, owed := owed - 1)
    }

    /** Stopped by its user. */
    ghost function Halted(): Rec {
      this.(started := false, running := false, owed := 0, finished := false)
    }

    /** The number of whole periods from the start to the last tick, but no more than asked for. */
    ghost function Expected(k: Clock): int {
      var n := if period == 0 || k.last < base then 0 else (k.last - base) / period;
      if 0 < target < n then target else n
    }
  }

  lemma Quotient(n: int, d: nat, q: nat)
    requires d > 0 && d * q <= n < d * (q + 1)
    ensures n / d == q
  {
    var r := n / d;
    assert d * r <= n < d * (r + 1);
    MulLess(q, r + 1, d);
    MulLess(r, q + 1, d);
  }

  lemma QuotientAtLeast(n: int, d: nat, q: nat)
    requires d > 0 && d * q <= n
    ensures q <= n / d
  {
    assert n < d * (n / d + 1);
    MulLess(q, n / d + 1, d);
  }

  /** Between ticks, an event started and not stopped since has been called once for every whole
      period from its start to the last tick, up to the number of calls asked for. */
  lemma CallsAreExact(r: Rec, k: Clock, due: nat)
    requires r.Accounted(k) && r.owed == 0 && k.Valid() && k.last == k.current - k.interval
    requires r.finished || (r.started && r.Prompt(k, due) && due >= k.tick)
    ensures r.calls == r.Expected(k)
  {
    if r.started {
      assert k.interval * (due - k.tick) >= 0;
      assert k.last < r.slap;
      Elapsed(k.last - r.base, r.period, r.calls);
    } else {
      assert r.calls == r.target;
      ElapsedAtLeast(k.last - r.base, r.period, r.calls);
    }
  }

  /** Less than one more period has passed. */
  lemma Elapsed(n: int, d: nat, q: nat)
    requires d > 0 && n < d * (q + 1) && (q > 0 ==> d * q <= n)
    ensures q == if n < 0 then 0 else n / d
  {
    if n >= 0 {
      Quotient(n, d, q);
    } else {
      assert d * q >= 0;
    }
  }

  lemma ElapsedAtLeast(n: int, d: nat, q: nat)
    requires d > 0 && q > 0 && d * q <= n
    ensures 0 <= n && q <= n / d
  {
    assert d * q >= 0;
    QuotientAtLeast(n, d, q);
  }

  // ----- Arming -------------------------------------------------------------------------------

  /** The number of ticks to wait for `slap`. */
  function Wait(slap: nat, current: nat, interval: nat): (e: nat)
    requires interval > 0 && slap >= current
  {
    var e := (slap - current + interval - 1) / interval;
    if e >= FAR then FAR else e
  }

  lemma WaitBounds(slap: nat, current: nat, interval: nat)
    requires interval > 0 && slap > current
    ensures var e := Wait(slap, current, interval); 0 < e <= FAR && interval * (e - 1) < slap - current
  {
    var n := slap - current;
    var w := (n + interval - 1) / interval;
    var e := Wait(slap, current, interval);
    assert interval * w <= n + interval - 1 < interval * (w + 1);
    MulLess(0, w, interval) by {
      assert interval * (w + 1) == w * interval + interval;
    }
    assert interval * (w - 1) == interval * w - interval;
    assert interval * (e - 1) <= interval * (w - 1);
  }

  /** Waiting so long is prompt; and the node's due tick is that many ticks from now, whether it is
      armed between ticks or in a callback, when the core is one tick ahead. */
  lemma WaitIsPrompt(k: Clock, slap: nat, inside: bool)
    requires k.Valid() && slap > k.current
    ensures var e := Wait(slap, k.current, k.interval);
      && 0 < e && k.At(k.tick + e) - k.interval < slap
      && DueTick((k.tick % WORD + e) % WORD, k.tick + if inside then 1 else 0) == k.tick + e
  {
    var e := Wait(slap, k.current, k.interval);
    WaitBounds(slap, k.current, k.interval);
    assert k.interval * e == k.interval * (e - 1) + k.interval;
    WaitWord(k.tick, e, inside);
  }

  lemma WaitWord(tick: nat, e: nat, inside: bool)
    requires 0 < e <= FAR
    ensures DueTick((tick % WORD + e) % WORD, tick + if inside then 1 else 0) == tick + e
  {
    assert (tick % WORD + e) % WORD == (tick + e) % WORD;
    NearIsDue(tick + e, tick + if inside then 1 else 0);
  }

  lemma DueIsAccounted(r: Rec, k: Clock)
    requires r.Accounted(k) && r.started && k.last == k.current && r.slap <= k.current
    ensures r.repeat != 1 ==> r.Due().Accounted(k)
    ensures r.repeat == 1 ==> r.Due().Calling(true).Accounted(k)
  {
    assert r.period * (r.Slots() + 2) == r.period * (r.Slots() + 1) + r.period;
  }

  lemma LaterIsAccounted(r: Rec, k: Clock, k': Clock)
    requires r.Accounted(k) && k.last <= k'.last && k.longest == k'.longest
    ensures r.Accounted(k')
  {
  }

  lemma EndedAt(k: Clock, t: int)
    ensures k.Ended().At(t) == k.At(t)
  {
    assert k.interval * (t - k.tick) == k.interval + k.interval * (t - (k.tick + 1));
  }
}
