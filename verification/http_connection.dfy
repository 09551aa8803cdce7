/** The queue of outstanding responses of curl_http/happyhttp/happyhttp.cpp. */
module HttpConnection {
  import M = HttpMachine
  import E = HttpExchange
  import O = HttpObject

  datatype Trouble = None | Exception | SteppedBack

  /** What some received bytes do to the queue: the responses completed, those still outstanding, and the
      bytes used. */
  datatype Drained = Drained(queue: seq<M.Response>, completed: seq<M.Response>, used: nat, trouble: Trouble)

  function After(done: M.Response, used: nat, d: Drained): Drained {
    Drained(d.queue, [done] + d.completed, used + d.used, d.trouble)
  }

  /** The loop of Connection::pump over a buffer; a response that makes trouble is left out. */
  function Drain(q: seq<M.Response>, d: string): Drained
    decreases |q|, 1
  {
    if d == [] || q == [] then Drained(q, [], 0, None)
    else
      M.PumpUses(q[0], d);
      Settle(q, M.Pump(q[0], d), d)
  }

  /** What follows when the first response has been pumped. */
  function Settle(q: seq<M.Response>, p: M.Pumped, d: string): Drained
    requires q != [] && p.used <= |d|
    decreases |q|, 0
  {
    match p.fate
    case Threw => Drained(q[1..], [], p.used, Exception)
    case Undefined => Drained(q[1..], [], p.used, SteppedBack)
    case Lives(r) =>
      if r.state == M.Complete then After(r, p.used, Drain(q[1..], d[p.used..]))
      else Drained([r] + q[1..], [], p.used, None)
  }

  /** All bytes are used, unless no response is outstanding any more. */
  lemma {:induction false} DrainUses(q: seq<M.Response>, d: string)
    ensures var s := Drain(q, d); s.used <= |d| && (s.trouble == None ==> s.used == |d| || s.queue == [])
    decreases |q|
  {
    if d != [] && q != [] {
      M.PumpUses(q[0], d);
      var p := M.Pump(q[0], d);
      if p.fate.Lives? && p.fate.r.state == M.Complete {
        DrainUses(q[1..], d[p.used..]);
      }
    }
  }

  /** The rest of the bytes, if all is well so far. */
  function Then(s: Drained, n: nat, d: string): Drained {
    if s.trouble == None && s.used == n then
      var t := Drain(s.queue, d);
      Drained(t.queue, s.completed + t.completed, s.used + t.used, t.trouble)
    else s
  }

  lemma {:induction false} AfterThen(done: M.Response, used: nat, s: Drained, n: nat, d: string)
    requires s.used <= n
    ensures After(done, used, Then(s, n, d)) == Then(After(done, used, s), used + n, d)
  {
    assert ([done] + s.completed) + Drain(s.queue, d).completed == [done] + (s.completed + Drain(s.queue, d).completed);
  }

  lemma {:induction false} NothingFirst(q: seq<M.Response>, d: string)
    ensures Then(Drained(q, [], 0, None), 0, d) == Drain(q, d)
  {
    assert [] + Drain(q, d).completed == Drain(q, d).completed;
  }

  /** The first response is completed by x. */
  lemma {:induction false} CompletedFront(q: seq<M.Response>, r: M.Response, n: nat, x: string, y: string)
    requires q != [] && r.state == M.Complete && n <= |x|
    requires Drain(q[1..], x[n..] + y) == Then(Drain(q[1..], x[n..]), |x| - n, y)
    ensures Settle(q, M.Pumped(M.Lives(r), n), x + y) == Then(Settle(q, M.Pumped(M.Lives(r), n), x), |x|, y)
  {
    assert (x + y)[n..] == x[n..] + y;
    DrainUses(q[1..], x[n..]);
    AfterThen(r, n, Drain(q[1..], x[n..]), |x| - n, y);
  }

  function Later(s: Drained, n: nat): Drained {
    s.(used := s.used + n)
  }

  lemma {:induction false} SettleLater(q: seq<M.Response>, q': seq<M.Response>, p: M.Pumped, x: string, y: string)
    requires q != [] && q' != [] && q[1..] == q'[1..] && p.used <= |y|
    ensures Settle(q, M.More(p, |x|), x + y) == Later(Settle(q', p, y), |x|)
  {
    var n := |x| + p.used;
    assert M.More(p, |x|) == M.Pumped(p.fate, n);
    assert (x + y)[n..] == y[p.used..];
    if p.fate.Lives? && p.fate.r.state == M.Complete {
      var t := Drain(q[1..], y[p.used..]);
      assert Settle(q, M.Pumped(p.fate, n), x + y) == After(p.fate.r, n, t);
      assert Settle(q', p, y) == After(p.fate.r, p.used, t);
    }
  }

  lemma {:induction false} ThenLater(q: seq<M.Response>, n: nat, y: string)
    ensures Then(Drained(q, [], n, None), n, y) == Later(Drain(q, y), n)
  {
    var s := Drain(q, y);
    assert [] + s.completed == s.completed;
  }

  /** The first response goes on with y. */
  lemma {:induction false} ContinuedFront(q: seq<M.Response>, r: M.Response, x: string, y: string)
    requires q != [] && r.state != M.Complete && M.Pump(r, y).used <= |y|
    ensures Settle(q, M.More(M.Pump(r, y), |x|), x + y) == Then(Drained([r] + q[1..], [], |x|, None), |x|, y)
  {
    var q' := [r] + q[1..];
    SettleLater(q, q', M.Pump(r, y), x, y);
    ThenLater(q', |x|, y);
    if y == [] {
      assert q'[1..] == q[1..];
    }
  }

  /** Pipelined responses do not depend on how the stream is cut into buffers. */
  lemma {:induction false} DrainSegments(q: seq<M.Response>, x: string, y: string)
    ensures Drain(q, x + y) == Then(Drain(q, x), |x|, y)
    decreases |q|
  {
    if x == [] {
      assert x + y == y;
      NothingFirst(q, y);
    } else if q != [] {
      M.PumpUses(q[0], x);
      M.PumpUses(q[0], x + y);
      M.Segments(q[0], x, y);
      var p := M.Pump(q[0], x);
      if p.fate.Lives? && p.fate.r.state == M.Complete {
        assert M.Pump(p.fate.r, y) == M.Pumped(M.Lives(p.fate.r), 0);
        DrainSegments(q[1..], x[p.used..], y);
        CompletedFront(q, p.fate.r, p.used, x, y);
      } else if p.fate.Lives? {
        M.PumpUses(p.fate.r, y);
        ContinuedFront(q, p.fate.r, x, y);
      }
    }
  }

  // ----- Stepping back --------------------------------------------------------------------------

  predicate AllWellFormed(q: seq<M.Response>) {
    forall i {:trigger q[i]} | 0 <= i < |q| :: M.WellFormed(q[i])
  }

  /** The first k responses are completed by the first bytes, and response k comes to a negative size. */
  predicate RunsAwayAt(q: seq<M.Response>, d: string, k: nat) {
    && k < |q|
    && var s := Drain(q[..k], d);
      s.trouble == None && s.queue == [] && s.used <= |d| && M.RunsAway(q[k], d[s.used..])
  }

  predicate RunsAway(q: seq<M.Response>, d: string) {
    exists k | 0 <= k < |q| :: RunsAwayAt(q, d, k)
  }

  lemma {:induction false} RunsAwayFirst(q: seq<M.Response>, d: string)
    requires q != []
    ensures RunsAwayAt(q, d, 0) <==> M.RunsAway(q[0], d)
  {
    assert Drain(q[..0], d) == Drained([], [], 0, None) && d[0..] == d;
  }

  /** The first response is completed by u bytes. */
  lemma {:induction false} RunsAwayNext(q: seq<M.Response>, d: string, k: nat)
    requires q != [] && d != []
    ensures var p := M.Pump(q[0], d);
      RunsAwayAt(q, d, k + 1) <==>
        p.fate.Lives? && p.fate.r.state == M.Complete && p.used <= |d| && RunsAwayAt(q[1..], d[p.used..], k)
  {
    var p := M.Pump(q[0], d);
    M.PumpUses(q[0], d);
    if k + 1 < |q| {
      var q1 := q[..k + 1];
      assert q1[0] == q[0] && q1[1..] == q[1..][..k] && q[1..][k] == q[k + 1];
      if p.fate.Lives? && p.fate.r.state == M.Complete {
        var t := Drain(q[1..][..k], d[p.used..]);
        assert Drain(q1, d) == After(p.fate.r, p.used, t);
        if t.used <= |d[p.used..]| {
          assert d[p.used..][t.used..] == d[p.used + t.used..];
        }
      } else {
        assert Drain(q1, d).trouble != None || Drain(q1, d).queue != [];
      }
    }
  }

  /** Draining steps back exactly if a response whose turn it is comes to a negative size and another byte
      follows. */
  lemma {:induction false} SteppedBackWhen(q: seq<M.Response>, d: string)
    requires AllWellFormed(q)
    ensures Drain(q, d).trouble == SteppedBack <==> RunsAway(q, d)
    decreases |q|
  {
    if q == [] {
    } else if d == [] {
      NoneRunsAway(q);
    } else {
      var p, q1 := M.Pump(q[0], d), q[1..];
      M.PumpUses(q[0], d);
      M.UndefinedWhen(q[0], d);
      RunsAwayFirst(q, d);
      forall k: nat
        ensures RunsAwayAt(q, d, k + 1) <==>
          p.fate.Lives? && p.fate.r.state == M.Complete && RunsAwayAt(q1, d[p.used..], k)
      {
        RunsAwayNext(q, d, k);
      }
      if p.fate.Lives? && p.fate.r.state == M.Complete {
        SteppedBackWhen(q1, d[p.used..]);
        RunsAwayLater(q, d, q1, d[p.used..]);
      } else if k :| 0 <= k < |q| && RunsAwayAt(q, d, k) {
        if k > 0 {
          RunsAwayNext(q, d, k - 1);
        }
      }
    }
  }

  lemma {:induction false} NoneRunsAway(q: seq<M.Response>)
    ensures !RunsAway(q, [])
  {
    forall k: nat | k < |q|
      ensures !RunsAwayAt(q, [], k)
    {
      assert k > 0 ==> Drain(q[..k], []).queue == q[..k];
    }
  }

  lemma {:induction false} RunsAwayLater(q: seq<M.Response>, d: string, q1: seq<M.Response>, d1: string)
    requires |q| == |q1| + 1 && !RunsAwayAt(q, d, 0)
    requires forall k: nat :: RunsAwayAt(q, d, k + 1) <==> RunsAwayAt(q1, d1, k)
    ensures RunsAway(q, d) <==> RunsAway(q1, d1)
  {
    if k :| 0 <= k < |q| && RunsAwayAt(q, d, k) {
      assert RunsAwayAt(q1, d1, k - 1);
    }
    if k :| 0 <= k < |q1| && RunsAwayAt(q1, d1, k) {
      assert RunsAwayAt(q, d, k + 1);
    }
  }

  lemma {:induction false} NotAway(q: seq<M.Response>, d: string)
    requires AllWellFormed(q) && q != [] && !RunsAway(q, d)
    ensures !M.RunsAway(q[0], d)
  {
    RunsAwayFirst(q, d);
  }

  lemma {:induction false} StillWellFormed(q: seq<M.Response>, q': seq<M.Response>)
    requires AllWellFormed(q) && |q'| == |q| > 0 && M.WellFormed(q'[0]) && q'[1..] == q[1..]
    ensures AllWellFormed(q') && AllWellFormed(q'[1..])
  {
    forall i | 0 < i < |q'|
      ensures M.WellFormed(q'[i])
    {
      assert q'[i] == q'[1..][i - 1] == q[i];
    }
  }

  // ----- The connection object ----------------------------------------------------------------

  class Connection {
    /** m_Outstanding, first response first. */
    var outstanding: seq<O.Response>
    /** The responses completed and deleted so far. */
    ghost var completed: seq<M.Response>

    ghost predicate Distinct() reads this {
      forall i, j {:trigger outstanding[i], outstanding[j]} | 0 <= i < j < |outstanding| ::
        outstanding[i] != outstanding[j]
    }

    ghost function Queue(): seq<M.Response>
      reads this, outstanding
    {
      States(outstanding)
    }

    ghost predicate Valid()
      reads this, outstanding
    {
      Distinct() && AllWellFormed(Queue())
    }

    constructor ()
      ensures Valid() && outstanding == [] && completed == []
    {
      outstanding, completed := [], [];
    }

    /** The first response goes on, or is complete and goes. */
    ghost predicate Went(q: seq<M.Response>, done: seq<M.Response>, r: M.Response)
      requires q != []
      reads this, outstanding
    {
      if r.state == M.Complete then Queue() == q[1..] && completed == done + [r]
      else Queue() == [r] + q[1..] && completed == done
    }

    /** The body of the loop of Connection::pump: the first response gets the bytes, and goes if it is
        complete. */
    method PumpFirst(d: string) returns (u: nat, threw: bool)
      requires Valid() && outstanding != [] && d != [] && !M.RunsAway(Queue()[0], d)
      modifies this, outstanding
      ensures Valid() && old(completed) <= completed
      ensures var p := M.Pump(old(Queue())[0], d);
        if threw then p.fate == M.Threw
        else p.fate.Lives? && p.used == u && Went(old(Queue()), old(completed), p.fate.r)
      ensures outstanding == old(outstanding) || outstanding == old(outstanding)[1..]
      ensures !threw && M.Pump(old(Queue())[0], d).fate.r.state == M.Complete ==> |outstanding| < |old(outstanding)|
    {
      var r := outstanding[0];
      u, threw := r.Pump(d);
      assert States(outstanding[1..]) == old(States(outstanding[1..]));
      StillWellFormed(old(Queue()), Queue());
      if !threw && r.state == M.Complete {
        completed := completed + [r.Now()];
        outstanding := outstanding[1..];
      }
    }

    /** The branch of Connection::pump for the end of the connection: the first response may end with it, and
        the others are discarded. */
    method EndOfConnection() returns (threw: bool)
      requires Valid() && outstanding != []
      modifies this, outstanding
      ensures Valid()
      ensures var f := M.Closed(old(Queue())[0]);
        if threw then f == M.Threw
        else f.Lives? && f.r.state == M.Complete && completed == old(completed) + [f.r] && outstanding == []
    {
      var r := outstanding[0];
      assert r.Now() == Queue()[0];
      threw := r.NotifyConnectionClosed();
      assert States(outstanding[1..]) == old(States(outstanding[1..]));
      StillWellFormed(old(Queue()), Queue());
      if !threw {
        assert r.state == M.Complete;
        completed := completed + [r.Now()];
        outstanding := [];
      }
    }

    /** One round, as seen from the whole: what has been done and what remains to be done make it up. */
    method Round(buf: string, used: nat, ghost whole: Drained, ghost base: nat) returns (used': nat, threw: bool)
      requires Valid() && outstanding != [] && used < |buf| && base <= |completed|
      requires SoFar(completed[base..], used, Drain(Queue(), buf[used..])) == whole && !RunsAway(Queue(), buf[used..])
      modifies this, outstanding
      ensures Valid() && old(completed) <= completed && used <= used' <= |buf|
      ensures outstanding == old(outstanding) || outstanding == old(outstanding)[1..]
      ensures threw ==> whole.trouble == Exception
      ensures !threw ==> used' == |buf| || |outstanding| < |old(outstanding)|
      ensures !threw ==> SoFar(completed[base..], used', Drain(Queue(), buf[used'..])) == whole
    {
      ghost var q, d, done := Queue(), buf[used..], completed;
      M.PumpUses(q[0], d);
      NotAway(q, d);
      var u;
      u, threw := PumpFirst(buf[used..]);
      used' := used;
      if !threw {
        FirstDone(q, d, done[base..], used);
        assert d[u..] == buf[used + u..];
        used' := used + u;
        assert completed == done || completed[base..] == done[base..] + completed[|done|..];
      }
    }

    /** The loop of Connection::pump over the bytes received; bytes are lost if no response is outstanding
        any more. */
    method PumpBuffer(buf: string) returns (used: nat, threw: bool)
      requires Valid() && !RunsAway(Queue(), buf)
      modifies this, outstanding
      ensures Valid() && old(completed) <= completed
      ensures var s := Drain(old(Queue()), buf);
        if threw then s.trouble == Exception
        else s == Drained(Queue(), completed[|old(completed)|..], used, None)
      ensures !threw ==> used == |buf| || outstanding == []
    {
      used, threw := 0, false;
      ghost var whole, base, k: nat := Drain(Queue(), buf), |completed|, 0;
      assert buf[0..] == buf && completed[base..] == [];
      Untouched(whole);
      SteppedBackWhen(Queue(), buf);
      while used < |buf| && outstanding != []
        invariant used <= |buf| && Valid() && old(completed) <= completed
        invariant k <= |old(outstanding)| && outstanding == old(outstanding)[k..]
        invariant SoFar(completed[base..], used, Drain(Queue(), buf[used..])) == whole
        decreases |outstanding|, |buf| - used
      {
        ghost var before := outstanding;
        SteppedBackWhen(Queue(), buf[used..]);
        used, threw := Round(buf, used, whole, base);
        if threw {
          return;
        }
        if outstanding != before {
          assert before[1..] == old(outstanding)[k + 1..];
          k := k + 1;
        }
      }
      NothingLeft(completed[base..], used, Queue(), buf[used..]);
    }
  }

  lemma {:induction false} NothingLeft(completed: seq<M.Response>, used: nat, q: seq<M.Response>, d: string)
    requires d == [] || q == []
    ensures SoFar(completed, used, Drain(q, d)) == Drained(q, completed, used, None)
  {
    assert completed + [] == completed;
  }

  lemma {:induction false} Untouched(s: Drained)
    ensures SoFar([], 0, s) == s
  {
    assert [] + s.completed == s.completed;
  }

  /** What the loop does with the first response is what Drain does. */
  lemma {:induction false} FirstDone(q: seq<M.Response>, d: string, done: seq<M.Response>, used: nat)
    requires q != [] && d != [] && M.Pump(q[0], d).fate.Lives? && M.Pump(q[0], d).used <= |d|
    ensures var p := M.Pump(q[0], d);
      if p.fate.r.state == M.Complete then
        SoFar(done, used, Drain(q, d)) == SoFar(done + [p.fate.r], used + p.used, Drain(q[1..], d[p.used..]))
      else
        && p.used == |d|
        && SoFar(done, used, Drain(q, d)) == SoFar(done, used + p.used, Drain([p.fate.r] + q[1..], d[p.used..]))
  {
    M.PumpUses(q[0], d);
    var p := M.Pump(q[0], d);
    if p.fate.r.state == M.Complete {
      var t := Drain(q[1..], d[p.used..]);
      assert done + ([p.fate.r] + t.completed) == (done + [p.fate.r]) + t.completed;
    }
  }

  ghost function States(rs: seq<O.Response>): (q: seq<M.Response>)
    reads rs
    ensures |q| == |rs|
  {
    if rs == [] then [] else [rs[0].Now()] + States(rs[1..])
  }

  function SoFar(completed: seq<M.Response>, used: nat, s: Drained): Drained {
    Drained(s.queue, completed + s.completed, used + s.used, s.trouble)
  }
}
