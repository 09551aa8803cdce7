/** Unsigned machine words of 64 bits, for `ceilToPow2` and `& sizeMask` of
    lock_free/one_2_one/readerwriterqueue.h. */
module PowersOfTwo {
  const WORD_BITS := 64

  /** Bit i has weight 2^i. */
  type Bits = seq<bool>

  function Pow2(e: nat): (p: nat)
    ensures p > 0
  {
    if e == 0 then 1 else 2 * Pow2(e - 1)
  }

  ghost predicate IsPow2(n: nat) {
    exists e: nat :: n == Pow2(e)
  }

  function Value(b: Bits): (v: nat)
    ensures v < Pow2(|b|)
  {
    if b == [] then 0 else (if b[0] then 1 else 0) + 2 * Value(b[1..])
  }

  function ToBits(v: nat, width: nat): (b: Bits)
    ensures |b| == width
    ensures v < Pow2(width) ==> Value(b) == v
  {
    if width == 0 then [] else [v % 2 == 1] + ToBits(v / 2, width - 1)
  }

  function Or(a: Bits, b: Bits): (c: Bits)
    requires |a| == |b|
    ensures |c| == |a|
  {
    seq(|a|, i requires 0 <= i < |a| => a[i] || b[i])
  }

  function And(a: Bits, b: Bits): (c: Bits)
    requires |a| == |b|
    ensures |c| == |a|
  {
    seq(|a|, i requires 0 <= i < |a| => a[i] && b[i])
  }

  function ShiftRight(a: Bits, k: nat): (c: Bits)
    ensures |c| == |a|
  {
    seq(|a|, i requires 0 <= i < |a| => i + k < |a| && a[i + k])
  }

  /** Bit i of `s` tells whether `x` has a bit set at one of i .. i + w - 1. */
  ghost predicate Smeared(x: Bits, s: Bits, w: nat) {
    && |s| == |x|
    && forall i | 0 <= i < |x| :: s[i] <==> exists j :: i <= j < i + w && j < |x| && x[j]
  }

  lemma SmearTwice(x: Bits, s: Bits, w: nat)
    requires Smeared(x, s, w)
    ensures Smeared(x, Or(s, ShiftRight(s, w)), 2 * w)
  {
    var t := Or(s, ShiftRight(s, w));
    forall i | 0 <= i < |x| ensures t[i] <==> exists j :: i <= j < i + 2 * w && j < |x| && x[j] {
      if exists j :: i <= j < i + 2 * w && j < |x| && x[j] {
        var j :| i <= j < i + 2 * w && j < |x| && x[j];
        if j >= i + w {
          assert s[i + w];
        }
      }
    }
  }

  /** 2^h is the highest bit of v: the h + 1 low bits are set after smearing. */
  lemma {:induction false} LowOnes(b: Bits, h: nat)
    requires h <= |b|
    requires forall i | 0 <= i < |b| :: b[i] <==> i < h
    ensures Value(b) == Pow2(h) - 1
  {
    if b != [] {
      assert forall i | 0 <= i < |b[1..]| :: b[1..][i] == b[i + 1];
      LowOnes(b[1..], if h == 0 then 0 else h - 1);
    }
  }

  lemma {:induction false} HighestBit(b: Bits, h: nat)
    requires h < |b| && b[h] && forall i | h < i < |b| :: !b[i]
    ensures Pow2(h) <= Value(b) < Pow2(h + 1)
  {
    if h == 0 {
      assert forall i | 0 <= i < |b[1..]| :: b[1..][i] <==> i < 0;
      LowOnes(b[1..], 0);
    } else {
      HighestBit(b[1..], h - 1);
    }
  }

  lemma {:induction false} Pow2Monotone(a: nat, b: nat)
    requires a <= b
    ensures Pow2(a) <= Pow2(b)
  {
    if a < b {
      Pow2Monotone(a, b - 1);
    }
  }

  /** The least power of two that is not below x. */
  ghost predicate IsCeiling(x: nat, r: nat) {
    IsPow2(r) && x <= r && forall e: nat {:trigger Pow2(e)} :: x <= Pow2(e) ==> r <= Pow2(e)
  }

  lemma Highest(x: Bits, n: nat) returns (h: nat)
    requires n <= |x| && exists i :: 0 <= i < n && x[i]
    ensures h < n && x[h] && forall i | h < i < n :: !x[i]
  {
    if x[n - 1] {
      h := n - 1;
    } else {
      h := Highest(x, n - 1);
    }
  }

  lemma SmearedValue(x: Bits, s: Bits)
    requires Smeared(x, s, |x|)
    ensures IsCeiling(Value(x) + 1, Value(s) + 1)
  {
    if exists i :: 0 <= i < |x| && x[i] {
      var h := Highest(x, |x|);
      HighestBit(x, h);
      forall i | 0 <= i < |s| ensures s[i] <==> i < h + 1 {
        if i <= h {
          assert i <= h < i + |x| && x[h];
        }
      }
      LowOnes(s, h + 1);
      forall e: nat | Value(x) + 1 <= Pow2(e) ensures Pow2(h + 1) <= Pow2(e) {
        if e <= h {
          Pow2Monotone(e, h);
        } else {
          Pow2Monotone(h + 1, e);
        }
      }
    } else {
      LowOnes(x, 0);
      LowOnes(s, 0);
      assert Pow2(0) == 1;
    }
  }

  /** The constructor's rounding of a capacity.  The word x - 1 is smeared to the right over
      distances 1, 2 and 4, then over 8, 16 and 32 in the loop, and incremented; a request of zero
      and one above the largest power of two wrap around to zero. */
  method CeilToPow2(x: nat) returns (r: nat)
    requires x < Pow2(WORD_BITS)
    ensures 1 <= x <= Pow2(WORD_BITS - 1) ==> IsCeiling(x, r)
    ensures x == 0 || x > Pow2(WORD_BITS - 1) ==> r == 0
  {
    ghost var start := ToBits(if x == 0 then Pow2(WORD_BITS) - 1 else x - 1, WORD_BITS);
    var w := ToBits(if x == 0 then Pow2(WORD_BITS) - 1 else x - 1, WORD_BITS);
    SmearTwice(start, w, 1);
    w := Or(w, ShiftRight(w, 1));
    SmearTwice(start, w, 2);
    w := Or(w, ShiftRight(w, 2));
    SmearTwice(start, w, 4);
    w := Or(w, ShiftRight(w, 4));
    var i := 1;
    while i < WORD_BITS / 8
      invariant i == 1 || i == 2 || i == 4 || i == 8
      invariant Smeared(start, w, 8 * i)
    {
      SmearTwice(start, w, 8 * i);
      w := Or(w, ShiftRight(w, 8 * i));
      i := 2 * i;
    }
    SmearedValue(start, w);
    r := if Value(w) + 1 == Pow2(WORD_BITS) then 0 else Value(w) + 1;
    CeilingFits(Value(start) + 1, Value(w) + 1);
  }

  /** A power of two that may be as large as the word size itself. */
  lemma CeilingFits(x: nat, r: nat)
    requires IsCeiling(x, r) && x <= Pow2(WORD_BITS)
    ensures x <= Pow2(WORD_BITS - 1) ==> r <= Pow2(WORD_BITS - 1) < Pow2(WORD_BITS)
    ensures Pow2(WORD_BITS - 1) < x ==> r == Pow2(WORD_BITS)
  {
    assert Pow2(WORD_BITS) == 2 * Pow2(WORD_BITS - 1);
    var e: nat :| r == Pow2(e);
    if Pow2(WORD_BITS - 1) < x {
      if e <= WORD_BITS - 1 {
        Pow2Monotone(e, WORD_BITS - 1);
      } else {
        Pow2Monotone(WORD_BITS, e);
      }
    }
  }

  lemma {:induction false} MaskBits(v: nat, e: nat, w: nat)
    requires v <= Pow2(e) && e < w
    ensures Value(And(ToBits(v, w), ToBits(Pow2(e) - 1, w))) == if v == Pow2(e) then 0 else v
  {
    if e == 0 {
      MaskNothing(ToBits(v, w), ToBits(0, w), w);
    } else {
      MaskHalf(e);
      MaskBits(v / 2, e - 1, w - 1);
      MaskTail(v, e, w);
      Halved(v, e);
    }
  }

  lemma MaskNothing(a: Bits, b: Bits, w: nat)
    requires |a| == w && b == ToBits(0, w)
    ensures Value(And(a, b)) == 0
  {
    ZeroBits(w);
    assert forall i | 0 <= i < w :: And(a, b)[i] <==> i < 0;
    LowOnes(And(a, b), 0);
  }

  lemma MaskTail(v: nat, e: nat, w: nat)
    requires 0 < e < w
    ensures Value(And(ToBits(v, w), ToBits(Pow2(e) - 1, w)))
      == v % 2 + 2 * Value(And(ToBits(v / 2, w - 1), ToBits(Pow2(e - 1) - 1, w - 1)))
  {
    var a, b := ToBits(v, w), ToBits(Pow2(e) - 1, w);
    MaskHalf(e);
    AndValue(a, b);
    assert a[1..] == ToBits(v / 2, w - 1) && b[1..] == ToBits(Pow2(e - 1) - 1, w - 1);
  }

  lemma MaskHalf(e: nat)
    requires e > 0
    ensures (Pow2(e) - 1) / 2 == Pow2(e - 1) - 1 && (Pow2(e) - 1) % 2 == 1
  {
  }

  lemma AndValue(a: Bits, b: Bits)
    requires |a| == |b| > 0
    ensures Value(And(a, b)) == (if a[0] && b[0] then 1 else 0) + 2 * Value(And(a[1..], b[1..]))
  {
    assert And(a, b)[1..] == And(a[1..], b[1..]);
  }

  lemma Halved(v: nat, e: nat)
    requires e > 0 && v <= Pow2(e)
    ensures v / 2 <= Pow2(e - 1) && v == v % 2 + 2 * (v / 2) && (v == Pow2(e) <==> v / 2 == Pow2(e - 1))
  {
  }

  lemma {:induction false} ZeroBits(w: nat)
    ensures forall i | 0 <= i < w :: !ToBits(0, w)[i]
  {
    if w > 0 {
      ZeroBits(w - 1);
    }
  }

  /** `(i + 1) & sizeMask`, on words of w bits, is the next slot of a block of n slots. */
  lemma MaskedIncrement(i: nat, n: nat, w: nat)
    requires IsPow2(n) && n < Pow2(w) && i < n
    ensures Value(And(ToBits(i + 1, w), ToBits(n - 1, w))) == if i + 1 == n then 0 else i + 1
  {
    var e: nat :| n == Pow2(e);
    if e >= w {
      Pow2Monotone(w, e);
    }
    MaskBits(i + 1, e, w);
  }
}
