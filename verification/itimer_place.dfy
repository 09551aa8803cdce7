/** Where timer_wheel/itimer.c puts a timer, and why that is right.

    Times are unbounded ticks here; the code sees them modulo 2^32.  Slots are numbered from 0:
    the 256 slots of the first wheel, then 64 for each of the four outer wheels, then QUEUED for
    the local list of the loop that is emptying a slot. */
module TimerPlace {
  const WORD: nat := 0x1_0000_0000
  const HALF: nat := 0x8000_0000
  type Word = w: nat | w < WORD
  const SLOTS: nat := 512
  const QUEUED: nat := 512

  /** The span of one slot of wheel `level`: 1, 2^8, 2^14, 2^20, 2^26 ticks. */
  function Span(level: nat): (s: nat)
    requires level <= 4
    ensures s > 0
  {
    match level
    case 0 => 1
    case 1 => 0x100
    case 2 => 0x4000
    case 3 => 0x10_0000
    case _ => 0x400_0000
  }

  function LevelOf(slot: nat): (level: nat)
    requires slot < SLOTS
    ensures level <= 4
  {
    if slot < 256 then 0 else 1 + (slot - 256) / 64
  }

  /** The number of a slot within its wheel. */
  function IndexOf(slot: nat): nat
    requires slot < SLOTS
  {
    if slot < 256 then slot else (slot - 256) % 64
  }

  function SlotAt(level: nat, index: nat): (slot: nat)
    requires level <= 4 && index < (if level == 0 then 256 else 64)
    ensures slot < SLOTS && LevelOf(slot) == level && IndexOf(slot) == index
  {
    if level == 0 then index else 256 + 64 * (level - 1) + index
  }

  /** The choice made by itimer_internal_add from the two 32-bit words it looks at. */
  function AddSlot(expires: nat, jiffies: nat): (slot: nat)
    requires expires < WORD && jiffies < WORD
    ensures slot < SLOTS
  {
    var idx := Ahead(expires, jiffies);
    if idx < 0x100 then SlotAt(0, expires % 256)
    else if idx < 0x4000 then SlotAt(1, expires / 0x100 % 64)
    else if idx < 0x10_0000 then SlotAt(2, expires / 0x4000 % 64)
    else if idx < 0x400_0000 then SlotAt(3, expires / 0x10_0000 % 64)
    else if idx >= HALF then SlotAt(0, jiffies % 256)
    else SlotAt(4, expires / 0x400_0000 % 64)
  }

  /** The unsigned 32-bit difference a - b. */
  function Ahead(a: nat, b: nat): (d: nat)
    requires a < WORD && b < WORD
    ensures d < WORD
  {
    if a >= b then a - b else a - b + WORD
  }

  /** The tick in which a timer added at tick `t` is due: the next tick with its expiry if that is
      less than half the range ahead, else (a time in the past) the next one to come. */
  function DueTick(expires: nat, t: nat): (due: nat)
    requires expires < WORD
    ensures due >= t
  {
    var idx := Ahead(expires, t % WORD);
    if idx < HALF then t + idx else t
  }

  /** A timer due at tick `due` with the expiry word `expires` is rightly in a slot while the next
      tick to run is `t` and the outer wheels up to `done` have been cascaded for it: in the first
      wheel it is in the slot of its due tick, less than a turn away; in an outer wheel the slot is
      the one of its due tick, will be cascaded before that, and not more than a turn from now. */
  predicate Placed(slot: nat, due: nat, expires: nat, t: nat, done: nat)
    requires slot < SLOTS
  {
    var level, index := LevelOf(slot), IndexOf(slot);
    var block := due / Span(level);
    if level == 0 then t <= due < t + 256 && due % 256 == index
    else
      && due % WORD == expires && due < t + HALF
      && block % 64 == index
      && t <= block * Span(level) < t + 64 * Span(level)
      && (level <= done ==> t < block * Span(level))
  }

  // ----- Arithmetic ---------------------------------------------------------------------------

  lemma AddIsDue(expires: nat, t: nat)
    requires expires < WORD
    ensures Ahead(expires, t % WORD) < HALF ==> DueTick(expires, t) % WORD == expires
  {
  }

  /** A slot number computed from the 32-bit word is the one of the unbounded tick. */
  lemma WordIndex(due: nat, level: nat)
    requires 1 <= level <= 4
    ensures due % WORD / Span(level) % 64 == due / Span(level) % 64
    ensures due % WORD % 256 == due % 256
  {
    var q, e := due / WORD, due % WORD;
    assert due == WORD * q + e;
    match level {
      case 1 => WholeTurns(due / 0x100, e / 0x100, 0x4_0000 * q);
      case 2 => WholeTurns(due / 0x4000, e / 0x4000, 0x1000 * q);
      case 3 => WholeTurns(due / 0x10_0000, e / 0x10_0000, 0x40 * q);
      case 4 => WholeTurns(due / 0x400_0000, e / 0x400_0000, q);
    }
  }

  lemma WholeTurns(a: nat, b: nat, k: nat)
    requires a == 64 * k + b
    ensures a % 64 == b % 64
  {
  }

  lemma BlockBounds(due: nat, level: nat)
    requires level <= 4
    ensures due - Span(level) < due / Span(level) * Span(level) <= due
  {
  }

  lemma OuterIsPlaced(due: nat, t: nat, level: nat, done: nat)
    requires 1 <= level <= 4 && Span(level) <= due - t < 64 * Span(level) && due - t < HALF
    ensures Placed(SlotAt(level, due % WORD / Span(level) % 64), due, due % WORD, t, done)
  {
    WordIndex(due, level);
    BlockBounds(due, level);
  }

  lemma InnerIsPlaced(due: nat, t: nat, done: nat)
    requires t <= due < t + 256
    ensures Placed(SlotAt(0, due % WORD % 256), due, due % WORD, t, done)
  {
    WordIndex(due, 1);
  }

  lemma PastIsPlaced(expires: nat, t: nat, done: nat)
    ensures Placed(SlotAt(0, t % WORD % 256), t, expires, t, done)
  {
    WordIndex(t, 1);
  }

  /** The branch taken by itimer_internal_add, by the distance ahead. */
  lemma AddBranch(expires: nat, jiffies: nat)
    requires expires < WORD && jiffies < WORD
    ensures var idx, slot := Ahead(expires, jiffies), AddSlot(expires, jiffies);
      && (idx < 0x100 ==> slot == SlotAt(0, expires % 256))
      && (idx >= HALF ==> slot == SlotAt(0, jiffies % 256))
      && (forall level {:trigger Span(level)} |
            1 <= level <= 4 && Span(level) <= idx < 64 * Span(level) && idx < HALF ::
            slot == SlotAt(level, expires / Span(level) % 64))
      && (idx < HALF ==> idx < 0x100 || exists level :: 1 <= level <= 4 && Span(level) <= idx < 64 * Span(level))
      && (forall level {:trigger Span(level)} | 1 <= level <= 4 && idx < Span(level) :: LevelOf(slot) < level)
  {
    var idx := Ahead(expires, jiffies);
    assert Span(1) == 0x100 && Span(2) == 0x4000 && Span(3) == 0x10_0000 && Span(4) == 0x400_0000;
  }

  /** Whatever the expiry, the slot chosen is a right one, even if every outer wheel has been
      cascaded for this tick already; and it is never the local list of a running loop. */
  lemma AddIsPlaced(expires: nat, t: nat, done: nat)
    requires expires < WORD
    ensures Placed(AddSlot(expires, t % WORD), DueTick(expires, t), expires, t, done)
  {
    var idx := Ahead(expires, t % WORD);
    var due := DueTick(expires, t);
    AddBranch(expires, t % WORD);
    AddIsDue(expires, t);
    if idx < 0x100 {
      InnerIsPlaced(due, t, done);
    } else if idx < HALF {
      var level :| 1 <= level <= 4 && Span(level) <= idx < 64 * Span(level);
      OuterIsPlaced(due, t, level, done);
    } else {
      PastIsPlaced(expires, t, done);
    }
  }

  /** When tick `t` opens a slot of wheel `level`, all timers in it are due within the span of that
      slot, so that adding them again moves them to a lower wheel. */
  lemma CascadedIsNear(slot: nat, due: nat, expires: nat, t: nat, done: nat)
    requires slot < SLOTS && 1 <= LevelOf(slot) && done < LevelOf(slot)
    requires Placed(slot, due, expires, t, done)
    requires t % Span(LevelOf(slot)) == 0 && t / Span(LevelOf(slot)) % 64 == IndexOf(slot)
    ensures t <= due < t + Span(LevelOf(slot)) && DueTick(expires, t) == due
    ensures LevelOf(AddSlot(expires, t % WORD)) < LevelOf(slot)
  {
    var level := LevelOf(slot);
    SameBlock(due / Span(level), t / Span(level), Span(level), t);
    BlockBounds(due, level);
    NearIsDue(due, t);
    AddBranch(expires, t % WORD);
  }

  lemma SameBlock(a: nat, b: nat, s: nat, t: nat)
    requires s > 0 && b == t / s && t % s == 0 && a % 64 == b % 64 && t <= a * s < t + 64 * s
    ensures a == b && a * s == t
  {
    assert t == b * s && (b - 1) * s == b * s - s && (b + 64) * s == b * s + 64 * s;
    MulLess(b - 1, a, s);
    MulLess(a, b + 64, s);
  }

  lemma MulLess(a: int, b: int, s: nat)
    requires a * s < b * s
    ensures a < b
  {
  }

  lemma NextWord(t: nat)
    ensures (t % WORD + 1) % WORD == (t + 1) % WORD
  {
  }

  /** The tick that itimer_internal_update runs up to, exclusively. */
  function Goal(until: Word, t: nat): (goal: nat)
    ensures goal >= t
  {
    var ahead := Ahead(until, t % WORD);
    if ahead < HALF then t + ahead + 1 else t
  }

  /** The 32-bit comparison in the loop stops it there. */
  lemma StopsAtGoal(until: Word, t0: nat, t: nat)
    requires t0 <= t <= Goal(until, t0)
    ensures Ahead(until, t % WORD) < HALF <==> t < Goal(until, t0)
  {
    var q, q0 := t / WORD, t0 / WORD;
    assert t == q * WORD + t % WORD && t0 == q0 * WORD + t0 % WORD;
  }

  /** Asked for the tick that comes next, it runs just that. */
  lemma NextTickIsGoal(t: nat)
    ensures Goal(t % WORD, t) == t + 1
    ensures Ahead(t % WORD, t % WORD) < HALF && Ahead(t % WORD, (t + 1) % WORD) >= HALF
  {
    StopsAtGoal(t % WORD, t, t + 1);
  }

  lemma NearIsDue(due: nat, t: nat)
    requires t <= due < t + HALF
    ensures Ahead(due % WORD, t % WORD) == due - t
  {
  }

  /** A timer elsewhere in that wheel is not due to be cascaded now. */
  lemma OthersStay(slot: nat, due: nat, expires: nat, t: nat, level: nat)
    requires slot < SLOTS && level == LevelOf(slot) && 1 <= level
    requires Placed(slot, due, expires, t, level - 1)
    requires t % Span(level) == 0 ==> t / Span(level) % 64 != IndexOf(slot)
    ensures Placed(slot, due, expires, t, level)
  {
  }

  /** The slot of the first wheel that tick `t` runs holds just the timers due at t, and the other
      places are right for the next tick. */
  lemma NextTick(slot: nat, due: nat, expires: nat, t: nat)
    requires slot < SLOTS && Placed(slot, due, expires, t, 4)
    ensures slot == t % 256 ==> due == t
    ensures slot != t % 256 ==> due != t && Placed(slot, due, expires, t + 1, 0)
  {
    if LevelOf(slot) > 0 {
      BlockBounds(due, LevelOf(slot));
    }
  }
}
