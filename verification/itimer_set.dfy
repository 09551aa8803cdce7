/** What the timer wheel of timer_wheel/itimer.c is meant to be: a set of timers with due ticks. */
module TimerSet {
  import opened TimerRing
  import opened Verdicts

  /** A timer is armed (again) for a tick, cancelled, or fired by the loop that runs a tick. */
  datatype Event =
    | Armed(n: Node, due: nat)
    | Cancelled(n: Node)
    | Fired(n: Node, tick: nat)

  /** Who is pending, for which tick, after a history of events. */
  ghost function Replay(trace: seq<Event>): map<Node, nat> {
    if trace == [] then map[]
    else
      var k := |trace| - 1;
      match trace[k]
      case Armed(n, due) => Replay(trace[..k])[n := due]
      case Cancelled(n) => Replay(trace[..k]) - {n}
      case Fired(n, _) => Replay(trace[..k]) - {n}
  }

  /** Every timer that fired was pending and fired in the tick it was due in. */
  ghost predicate Punctual(trace: seq<Event>) {
    forall k {:trigger PunctualAt(trace, k)} | 0 <= k < |trace| :: PunctualAt(trace, k)
  }

  ghost predicate PunctualAt(trace: seq<Event>, k: nat)
    requires k < |trace|
  {
    trace[k].Fired? ==>
      trace[k].n in Replay(trace[..k]) && Replay(trace[..k])[trace[k].n] == trace[k].tick
  }

  /** The pending timers are what the events say, and timers have only fired in their due ticks,
      all before `time`. */
  ghost function Told(trace: seq<Event>, due: map<Node, nat>, time: nat): Verdict {
    if forall k {:trigger ToldAt(trace, due, time, k)} | 0 <= k <= |trace| :: ToldAt(trace, due, time, k)
    then Sound else Broken
  }

  ghost predicate ToldAt(trace: seq<Event>, due: map<Node, nat>, time: nat, k: nat)
    requires k <= |trace|
  {
    if k == |trace| then due == Replay(trace)
    else PunctualAt(trace, k) && (trace[k].Fired? ==> trace[k].tick < time)
  }

  lemma WhatIsTold(trace: seq<Event>, due: map<Node, nat>, time: nat)
    requires Told(trace, due, time).Sound?
    ensures due == Replay(trace) && Punctual(trace)
  {
    assert ToldAt(trace, due, time, |trace|);
    forall k | 0 <= k < |trace| ensures PunctualAt(trace, k) {
      assert ToldAt(trace, due, time, k);
    }
  }

  ghost function After(due: map<Node, nat>, e: Event): map<Node, nat> {
    if e.Armed? then due[e.n := e.due] else due - {e.n}
  }

  lemma ToldMore(trace: seq<Event>, due: map<Node, nat>, time: nat, e: Event)
    requires Told(trace, due, time).Sound?
    requires e.Fired? ==> e.n in due && due[e.n] == e.tick && e.tick < time
    ensures Told(trace + [e], After(due, e), time).Sound?
  {
    WhatIsTold(trace, due, time);
    var longer := trace + [e];
    assert longer[..|trace|] == trace;
    forall k | 0 <= k <= |longer| ensures ToldAt(longer, After(due, e), time, k) {
      if k < |trace| {
        assert ToldAt(trace, due, time, k) && PunctualAt(trace, k) && longer[..k] == trace[..k];
      }
    }
  }

  lemma ToldLater(trace: seq<Event>, due: map<Node, nat>, time: nat)
    requires Told(trace, due, time).Sound?
    ensures Told(trace, due, time + 1).Sound?
  {
    var later := time + 1;
    forall k | 0 <= k <= |trace| ensures ToldAt(trace, due, later, k) {
      assert ToldAt(trace, due, time, k);
    }
  }

  /** The user does nothing to timer n in `trace` from event `from` on. */
  ghost predicate LeftAlone(trace: seq<Event>, n: Node, from: nat) {
    forall i {:trigger trace[i]} | from <= i < |trace| :: trace[i].n == n ==> trace[i].Fired?
  }

  /** After being armed for `due` and then left alone, a timer is either still pending for that
      tick or has fired, once, in that tick. */
  lemma {:induction false} PendingOrFired(trace: seq<Event>, n: Node, due: nat, k: nat) returns (at: nat)
    requires Punctual(trace) && k < |trace| && trace[k] == Armed(n, due) && LeftAlone(trace, n, k + 1)
    ensures at == |trace| ==>
      && n in Replay(trace) && Replay(trace)[n] == due
      && (forall i {:trigger trace[i]} | k < i < |trace| :: trace[i].n != n)
    ensures at != |trace| ==>
      && k < at < |trace| && trace[at] == Fired(n, due) && n !in Replay(trace)
      && (forall i {:trigger trace[i]} | k < i < |trace| && i != at :: trace[i].n != n)
  {
    var last := |trace| - 1;
    if k == last {
      return |trace|;
    }
    var before := trace[..last];
    forall i | 0 <= i < last ensures PunctualAt(before, i) {
      assert PunctualAt(trace, i) && before[..i] == trace[..i];
    }
    at := PendingOrFired(before, n, due, k);
    assert PunctualAt(trace, last);
    if at == last && trace[last].n != n {
      at := |trace|;
    }
  }
}
