/** Every pending timer is in a place that is right for its due tick, as the wheel turns. */
module TimerTiming {
  import opened TimerRing
  import opened TimerPlace
  import opened TimerShape
  import opened Verdicts

  /** A timer due at `tick` is rightly in a slot, or in the local list: that holds the timers due
      within `width` ticks from now, or, if `width` is 0, those due in the tick just begun. */
  ghost predicate WellPlaced(slot: nat, tick: nat, expires: nat, time: nat, done: nat, width: nat) {
    if slot < SLOTS then Placed(slot, tick, expires, time, done)
    else if width == 0 then tick + 1 == time
    else time <= tick < time + width && width <= HALF && expires == tick % WORD
  }

  ghost predicate RightAt(
    n: Node, timers: set<Node>, at: map<Node, nat>, due: map<Node, nat>, expiry: map<Node, nat>,
    time: nat, done: nat, width: nat)
  {
    && n in timers && (n in due <==> n in at)
    && (n in due ==> n in expiry && WellPlaced(at[n], due[n], expiry[n], time, done, width))
  }

  /** The pending timers are the linked ones, and each is in a place right for its due tick. */
  ghost function Right(
    timers: set<Node>, at: map<Node, nat>, due: map<Node, nat>, expiry: map<Node, nat>,
    time: nat, done: nat, width: nat): Verdict
  {
    if forall n {:trigger RightAt(n, timers, at, due, expiry, time, done, width)} | n in timers + due.Keys ::
      RightAt(n, timers, at, due, expiry, time, done, width)
    then Sound else Broken
  }

  lemma RemoveRight(
      n: Node, timers: set<Node>, at: map<Node, nat>, due: map<Node, nat>, expiry: map<Node, nat>,
      time: nat, done: nat, width: nat)
    requires Right(timers, at, due, expiry, time, done, width).Sound?
    ensures Right(timers, at - {n}, due - {n}, expiry, time, done, width).Sound?
  {
    var due' := due - {n};
    forall m | m in timers + due'.Keys ensures RightAt(m, timers, at - {n}, due', expiry, time, done, width) {
      assert m in timers + due.Keys && RightAt(m, timers, at, due, expiry, time, done, width);
    }
  }

  lemma ChangeRight(
      n: Node, slot: nat, tick: nat, expires: nat,
      timers: set<Node>, at: map<Node, nat>, due: map<Node, nat>, expiry: map<Node, nat>,
      time: nat, done: nat, width: nat)
    requires Right(timers, at, due, expiry, time, done, width).Sound? && n in timers
    requires WellPlaced(slot, tick, expires, time, done, width)
    ensures Right(timers, at[n := slot], due[n := tick], expiry[n := expires], time, done, width).Sound?
  {
    var due' := due[n := tick];
    forall m | m in timers + due'.Keys
      ensures RightAt(m, timers, at[n := slot], due', expiry[n := expires], time, done, width)
    {
      if m != n {
        assert m in timers + due.Keys && RightAt(m, timers, at, due, expiry, time, done, width);
      }
    }
  }

  /** The slot chosen for a timer is right for the tick it is due in. */
  lemma AddRight(
      n: Node, expires: nat, timers: set<Node>, at: map<Node, nat>, due: map<Node, nat>, expiry: map<Node, nat>,
      time: nat, done: nat, width: nat)
    requires Right(timers, at, due, expiry, time, done, width).Sound? && n in timers && expires < WORD
    ensures Right(
      timers, (at - {n})[n := AddSlot(expires, time % WORD)], due[n := DueTick(expires, time)],
      expiry[n := expires], time, done, width).Sound?
  {
    var slot := AddSlot(expires, time % WORD);
    AddIsPlaced(expires, time, done);
    ChangeRight(n, slot, DueTick(expires, time), expires, timers, at, due, expiry, time, done, width);
    assert at[n := slot] == (at - {n})[n := slot];
  }

  lemma PendingIsLinked(
      n: Node, timers: set<Node>, at: map<Node, nat>, due: map<Node, nat>, expiry: map<Node, nat>,
      time: nat, done: nat, width: nat)
    requires Right(timers, at, due, expiry, time, done, width).Sound? && n in timers
    ensures n in due <==> n in at
    ensures n in at ==> n in expiry && WellPlaced(at[n], due[n], expiry[n], time, done, width)
  {
    assert RightAt(n, timers, at, due, expiry, time, done, width);
  }

  /** What a list head holds does not matter. */
  lemma OtherExpiry(
      q: Node, timers: set<Node>, at: map<Node, nat>, due: map<Node, nat>, expiry: map<Node, nat>,
      time: nat, done: nat, width: nat)
    requires Right(timers, at, due, expiry, time, done, width).Sound? && q !in timers
    ensures Right(timers, at, due, expiry[q := 0], time, done, width).Sound?
  {
    forall m | m in timers + due.Keys ensures RightAt(m, timers, at, due, expiry[q := 0], time, done, width) {
      assert RightAt(m, timers, at, due, expiry, time, done, width);
    }
  }

  // ----- Cascading ----------------------------------------------------------------------------

  /** No linked node is in the local list. */
  ghost predicate NoneQueued(at: map<Node, nat>) {
    forall n {:trigger at[n]} | n in at :: at[n] < SLOTS
  }

  /** Opening a slot of an outer wheel: the timers moved to the local list are due within its span,
      the others may stay. */
  lemma SlotOpened(
      timers: set<Node>, at: map<Node, nat>, due: map<Node, nat>, expiry: map<Node, nat>, time: nat,
      level: nat, index: nat, head: Node, q: Node)
    requires 1 <= level <= 4 && time % Span(level) == 0 && index == time / Span(level) % 64
    requires Right(timers, at, due, expiry, time, level - 1, 0).Sound? && NoneQueued(at)
    requires head !in timers && q !in timers
    ensures Right(timers, MovedAt(at, SlotAt(level, index), head, q), due, expiry, time, level, Span(level)).Sound?
  {
    var slot := SlotAt(level, index);
    var at' := MovedAt(at, slot, head, q);
    forall m | m in timers + due.Keys ensures RightAt(m, timers, at', due, expiry, time, level, Span(level)) {
      assert RightAt(m, timers, at, due, expiry, time, level - 1, 0);
      if m in due {
        OneOpened(at[m], due[m], expiry[m], time, level, index);
      }
    }
  }

  lemma OneOpened(slot: nat, due: nat, expires: nat, time: nat, level: nat, index: nat)
    requires 1 <= level <= 4 && time % Span(level) == 0 && index == time / Span(level) % 64
    requires slot < SLOTS && Placed(slot, due, expires, time, level - 1)
    ensures slot == SlotAt(level, index) ==> WellPlaced(QUEUED, due, expires, time, level, Span(level))
    ensures slot != SlotAt(level, index) ==> WellPlaced(slot, due, expires, time, level, Span(level))
  {
    if slot == SlotAt(level, index) {
      CascadedIsNear(slot, due, expires, time, level - 1);
    } else if LevelOf(slot) == level {
      if IndexOf(slot) == index {
        SlotIsItsIndex(slot, SlotAt(level, index));
      }
      OthersStay(slot, due, expires, time, level);
    }
  }

  lemma SlotIsItsIndex(a: nat, b: nat)
    requires a < SLOTS && b < SLOTS && LevelOf(a) == LevelOf(b) && IndexOf(a) == IndexOf(b)
    ensures a == b
  {
  }

  /** A wheel none of whose slots opens in this tick needs no cascade. */
  lemma SlotShut(
      timers: set<Node>, at: map<Node, nat>, due: map<Node, nat>, expiry: map<Node, nat>, time: nat, level: nat)
    requires 1 <= level <= 4 && time % Span(level) != 0
    requires Right(timers, at, due, expiry, time, level - 1, 0).Sound? && NoneQueued(at)
    ensures Right(timers, at, due, expiry, time, level, 0).Sound?
  {
    forall m | m in timers + due.Keys ensures RightAt(m, timers, at, due, expiry, time, level, 0) {
      assert RightAt(m, timers, at, due, expiry, time, level - 1, 0);
      if m in due {
        OneShut(at[m], due[m], expiry[m], time, level);
      }
    }
  }

  lemma OneShut(slot: nat, due: nat, expires: nat, time: nat, level: nat)
    requires 1 <= level <= 4 && time % Span(level) != 0
    requires slot < SLOTS && Placed(slot, due, expires, time, level - 1)
    ensures Placed(slot, due, expires, time, level)
  {
    if LevelOf(slot) == level {
      OthersStay(slot, due, expires, time, level);
    }
  }

  lemma BeyondShut(time: nat, level: nat)
    requires 1 <= level < 4 && time % Span(level) != 0
    ensures time % Span(level + 1) != 0
  {
    if time % Span(level + 1) == 0 {
      Multiple(time, Span(level), 64);
    }
  }

  lemma Multiple(t: nat, a: nat, b: nat)
    requires a > 0 && b > 0 && t % (a * b) == 0
    ensures t % a == 0
  {
    var k, d := b * (t / (a * b)), t / a;
    assert t == k * a;
    assert d * a <= t < (d + 1) * a;
    assert t < (k + 1) * a;
    MulLess(k, d + 1, a);
    MulLess(d, k + 1, a);
  }

  /** The next wheel turns on when the index into this one is back at 0. */
  lemma NextWheel(time: nat, level: nat)
    requires 1 <= level < 4 && time % Span(level) == 0
    ensures time / Span(level) % 64 == 0 <==> time % Span(level + 1) == 0
  {
  }

  /** Then the wheels beyond it need none either. */
  lemma RestShut(
      timers: set<Node>, at: map<Node, nat>, due: map<Node, nat>, expiry: map<Node, nat>, time: nat, done: nat)
    requires done < 4 ==> time % Span(done + 1) != 0
    requires done <= 4 && Right(timers, at, due, expiry, time, done, 0).Sound? && NoneQueued(at)
    ensures Right(timers, at, due, expiry, time, 4, 0).Sound?
    decreases 4 - done
  {
    if done < 4 {
      SlotShut(timers, at, due, expiry, time, done + 1);
      if done < 3 {
        BeyondShut(time, done + 1);
      }
      RestShut(timers, at, due, expiry, time, done + 1);
    }
  }

  /** A timer of the local list goes to a lower wheel, into a slot not yet passed. */
  lemma AddedAgain(
      n: Node, timers: set<Node>, at: map<Node, nat>, due: map<Node, nat>, expiry: map<Node, nat>,
      time: nat, done: nat, level: nat)
    requires level <= 4 && Right(timers, at, due, expiry, time, done, Span(level)).Sound?
    requires n in timers && n in at && at[n] == QUEUED
    ensures n in expiry && expiry[n] < WORD
    ensures var j := AddSlot(expiry[n], time % WORD);
      && (1 <= level ==> LevelOf(j) < level)
      && Right(timers, (at - {n})[n := j], due, expiry, time, done, Span(level)).Sound?
  {
    PendingIsLinked(n, timers, at, due, expiry, time, done, Span(level));
    NearIsDue(due[n], time);
    AddBranch(expiry[n], time % WORD);
    AddRight(n, expiry[n], timers, at, due, expiry, time, done, Span(level));
    assert due[n := due[n]] == due && expiry[n := expiry[n]] == expiry;
  }

  /** Since `was`, the timers then in `slot` have gone to the local list or a lower wheel, and the
      others are where they were. */
  ghost function Sunk(timers: set<Node>, was: map<Node, nat>, at: map<Node, nat>, slot: nat): Verdict
    requires slot < SLOTS
  {
    if forall n {:trigger SunkAt(n, was, at, slot)} | n in timers :: SunkAt(n, was, at, slot) then Sound else Broken
  }

  ghost predicate SunkAt(n: Node, was: map<Node, nat>, at: map<Node, nat>, slot: nat)
    requires slot < SLOTS
  {
    && (n in was <==> n in at)
    && (n in was ==>
          if was[n] == slot then at[n] < SLOTS ==> LevelOf(at[n]) < LevelOf(slot) else at[n] == was[n])
  }

  lemma SunkOpened(timers: set<Node>, at: map<Node, nat>, slot: nat, head: Node, q: Node)
    requires slot < SLOTS && head !in timers && q !in timers
    ensures Sunk(timers, at, MovedAt(at, slot, head, q), slot).Sound?
  {
    forall n | n in timers ensures SunkAt(n, at, MovedAt(at, slot, head, q), slot) {
    }
  }

  lemma SunkMore(timers: set<Node>, was: map<Node, nat>, at: map<Node, nat>, slot: nat, n: Node, j: nat)
    requires slot < SLOTS && Sunk(timers, was, at, slot).Sound? && NoneQueued(was)
    requires n in timers && n in at && at[n] == QUEUED && j < SLOTS && LevelOf(j) < LevelOf(slot)
    ensures Sunk(timers, was, (at - {n})[n := j], slot).Sound?
  {
    assert SunkAt(n, was, at, slot);
    forall m | m in timers ensures SunkAt(m, was, (at - {n})[n := j], slot) {
      assert SunkAt(m, was, at, slot);
    }
  }

  lemma SunkClosed(timers: set<Node>, was: map<Node, nat>, at: map<Node, nat>, slot: nat, q: Node)
    requires slot < SLOTS && Sunk(timers, was, at, slot).Sound? && q !in timers
    ensures Sunk(timers, was, at - {q}, slot).Sound?
  {
    forall m | m in timers ensures SunkAt(m, was, at - {q}, slot) {
      assert SunkAt(m, was, at, slot);
    }
  }

  /** When the local list goes, its width no longer matters. */
  lemma ListGone(
      q: Node, timers: set<Node>, at: map<Node, nat>, due: map<Node, nat>, expiry: map<Node, nat>,
      time: nat, done: nat, width: nat)
    requires Right(timers, at, due, expiry, time, done, width).Sound? && NoneQueued(at - {q}) && q !in timers
    ensures Right(timers, at - {q}, due, expiry, time, done, 0).Sound?
  {
    forall m | m in timers + due.Keys ensures RightAt(m, timers, at - {q}, due, expiry, time, done, 0) {
      assert RightAt(m, timers, at, due, expiry, time, done, width);
      assert m in due ==> (at - {q})[m] < SLOTS;
    }
  }

  // ----- Running a tick -----------------------------------------------------------------------

  /** Emptying the slot of this tick: the timers moved to the local list are just those due now,
      and the others are rightly placed for the next tick. */
  lemma SlotTurned(
      timers: set<Node>, at: map<Node, nat>, due: map<Node, nat>, expiry: map<Node, nat>, time: nat,
      head: Node, q: Node)
    requires Right(timers, at, due, expiry, time, 4, 0).Sound? && NoneQueued(at)
    requires head !in timers && q !in timers
    ensures Right(timers, MovedAt(at, time % 256, head, q), due, expiry, time + 1, 0, 0).Sound?
    ensures forall n | n in due && n in at :: due[n] == time <==> at[n] == time % 256
  {
    forall m | m in timers + due.Keys
      ensures RightAt(m, timers, MovedAt(at, time % 256, head, q), due, expiry, time + 1, 0, 0)
      ensures m in due ==> m in at && (due[m] == time <==> at[m] == time % 256)
    {
      assert RightAt(m, timers, at, due, expiry, time, 4, 0);
      if m in due {
        NextTick(at[m], due[m], expiry[m], time);
      }
    }
  }

  /** The same, with the head of the new list stored. */
  lemma SlotTurnedTo(
      timers: set<Node>, at: map<Node, nat>, due: map<Node, nat>, expiry: map<Node, nat>, time: nat,
      head: Node, q: Node)
    requires Right(timers, at, due, expiry, time, 4, 0).Sound? && NoneQueued(at)
    requires head !in timers && q !in timers
    ensures Right(timers, MovedAt(at, time % 256, head, q), due, expiry[q := 0], time + 1, 0, 0).Sound?
  {
    SlotTurned(timers, at, due, expiry, time, head, q);
    OtherExpiry(q, timers, MovedAt(at, time % 256, head, q), due, expiry, time + 1, 0, 0);
  }

  lemma NoneLate(timers: set<Node>, at: map<Node, nat>, due: map<Node, nat>, expiry: map<Node, nat>, time: nat)
    requires Right(timers, at, due, expiry, time, 0, 0).Sound? && NoneQueued(at)
    ensures forall n | n in due :: due[n] >= time
  {
    forall n | n in due ensures due[n] >= time {
      assert RightAt(n, timers, at, due, expiry, time, 0, 0);
      BlockBounds(due[n], LevelOf(at[n]));
    }
  }

  // ----- Core pointers ------------------------------------------------------------------------

  /** A timer is linked iff its core pointer is set, and its expiry is a word. */
  ghost function Nodes(timers: set<Node>, at: map<Node, nat>, data: Data): Verdict {
    if
      && timers <= data.expires.Keys && timers <= data.attached.Keys
      && (forall n {:trigger NodeAt(at, data, n)} | n in timers :: NodeAt(at, data, n))
    then Sound else Broken
  }

  ghost predicate NodeAt(at: map<Node, nat>, data: Data, n: Node) {
    && n in data.expires && n in data.attached
    && (data.attached[n] <==> n in at) && data.expires[n] < WORD
  }

  /** That is so if timer n is linked, whatever its core pointer is now. */
  ghost function NodesAfterAdd(timers: set<Node>, at: map<Node, nat>, data: Data, n: Node): Verdict {
    Nodes(timers, at[n := 0], data.(attached := data.attached[n := true]))
  }

  lemma NodesAdded(timers: set<Node>, at: map<Node, nat>, data: Data, n: Node, j: nat)
    requires NodesAfterAdd(timers, at, data, n).Sound?
    ensures Nodes(timers, at[n := j], data.(attached := data.attached[n := true])).Sound?
  {
    var data' := data.(attached := data.attached[n := true]);
    forall m | m in timers ensures NodeAt(at[n := j], data', m) {
      assert NodeAt(at[n := 0], data', m);
    }
  }

  lemma NodesDropped(timers: set<Node>, at: map<Node, nat>, data: Data, n: Node)
    requires Nodes(timers, at, data).Sound?
    ensures Nodes(timers, at - {n}, data.(attached := data.attached[n := false])).Sound?
  {
    forall m | m in timers ensures NodeAt(at - {n}, data.(attached := data.attached[n := false]), m) {
      assert NodeAt(at, data, m);
    }
  }

  lemma NodesToAdd(timers: set<Node>, at: map<Node, nat>, data: Data, n: Node, expires: nat)
    requires Nodes(timers, at, data).Sound? && expires < WORD && n !in at
    ensures NodesAfterAdd(timers, at, data.(expires := data.expires[n := expires]), n).Sound?
  {
    var data' := Data(data.expires[n := expires], data.attached[n := true]);
    forall m | m in timers ensures NodeAt(at[n := 0], data', m) {
      assert NodeAt(at, data, m);
    }
  }

  lemma NodesToMove(timers: set<Node>, at: map<Node, nat>, data: Data, n: Node)
    requires Nodes(timers, at, data).Sound?
    ensures NodesAfterAdd(timers, at - {n}, data, n).Sound?
  {
    forall m | m in timers ensures NodeAt((at - {n})[n := 0], data.(attached := data.attached[n := true]), m) {
      assert NodeAt(at, data, m);
    }
  }

  /** List heads are not timers. */
  lemma NodesSame(timers: set<Node>, at: map<Node, nat>, at': map<Node, nat>, data: Data)
    requires Nodes(timers, at, data).Sound? && timers * at.Keys == timers * at'.Keys
    ensures Nodes(timers, at', data).Sound?
  {
    forall m | m in timers ensures NodeAt(at', data, m) {
      assert NodeAt(at, data, m);
      assert m in timers * at.Keys <==> m in timers * at'.Keys;
    }
  }

  lemma NodesData(timers: set<Node>, at: map<Node, nat>, data: Data, q: Node)
    requires Nodes(timers, at, data).Sound? && q !in timers
    ensures Nodes(timers, at, Data(data.expires[q := 0], data.attached[q := false])).Sound?
  {
    forall m | m in timers ensures NodeAt(at, Data(data.expires[q := 0], data.attached[q := false]), m) {
      assert NodeAt(at, data, m);
    }
  }

  // ----- The local list -----------------------------------------------------------------------

  lemma NoneLocal(s: Shape, timers: set<Node>, heads: seq<Node>)
    requires s.Check(timers, heads).Sound? && s.Local() == []
    ensures NoneQueued(s.at)
  {
    s.Clauses(timers, heads);
    forall n | n in s.at ensures s.at[n] < SLOTS {
      assert s.Home(n);
    }
  }

  /** Taking out a timer shortens the local list, if that is where it is, and leaves its head. */
  lemma Shorter(s: Shape, timers: set<Node>, heads: seq<Node>, n: Node)
    requires s.Check(timers, heads).Sound? && n in timers
    ensures var before, after := s.Local(), ListWithout(s, n);
      && |after| == (if n in before then |before| - 1 else |before|)
      && (before != [] ==> after != [] && after[0] == before[0])
  {
    s.Clauses(timers, heads);
    var before := s.Local();
    if n in before {
      assert s.MemberAt(timers, QUEUED, Index(before, n));
    }
  }

  /** A timer is linked iff its link does not point to itself. */
  lemma SelfLinked(s: Shape, timers: set<Node>, heads: seq<Node>, n: Node)
    requires s.Check(timers, heads).Sound? && n in timers
    ensures n in s.links.next && (s.links.next[n] == n <==> n !in s.at)
  {
    s.Clauses(timers, heads);
    if n in s.at {
      UnlinkedValid(s, timers, heads, n);
    } else {
      assert s.Single(n);
    }
  }
}
