/** Little-endian numbers, places counted from the end of a buffer, and padding, as in
    msgpack_flatbuffer_compare/fb/flatbuffers.h. */
module FlatBytes {
  import opened PowersOfTwo

  type Byte = b: nat | b < 256

  /** 256^n */
  function Limit(n: nat): (l: nat)
    ensures l > 0
  {
    if n == 0 then 1 else 256 * Limit(n - 1)
  }

  function Digit(v: nat, i: nat): Byte {
    if i == 0 then v % 256 else Digit(v / 256, i - 1)
  }

  /** WriteScalar, on n bytes. */
  function LE(n: nat, v: nat): (s: seq<Byte>)
    ensures |s| == n
  {
    seq(n, i requires 0 <= i => Digit(v, i))
  }

  /** ReadScalar, of a value without sign. */
  function Val(s: seq<Byte>): (v: nat)
    ensures v < Limit(|s|)
  {
    if s == [] then 0 else s[0] + 256 * Val(s[1..])
  }

  lemma {:induction false} ValBack(n: nat, v: nat)
    requires v < Limit(n)
    ensures Val(LE(n, v)) == v
  {
    if n > 0 {
      ValBack(n - 1, v / 256);
      assert LE(n, v)[1..] == LE(n - 1, v / 256);
    }
  }

  lemma Limits()
    ensures Limit(1) == 0x100 && Limit(2) == 0x1_0000 && Limit(4) == 0x1_0000_0000
    ensures Limit(8) == 0x1_0000_0000_0000_0000
  {
    assert Limit(3) == 0x100_0000;
    assert Limit(4) == 0x1_0000_0000 && Limit(5) == 0x100_0000_0000;
    assert Limit(6) == 0x1_0000_0000_0000 && Limit(7) == 0x100_0000_0000_0000;
  }

  function Zeros(n: nat): (s: seq<Byte>)
    ensures |s| == n && forall i | 0 <= i < n :: s[i] == 0
  {
    seq(n, _ => 0)
  }

  // ----- Places -------------------------------------------------------------------------------

  /** The n bytes of a buffer that start `o` bytes before its end. */
  function Sub(data: seq<Byte>, o: nat, n: nat): (s: seq<Byte>)
    requires n <= o <= |data|
    ensures |s| == n
  {
    seq(n, i requires 0 <= i < n => data[|data| - o + i])
  }

  /** What is in a buffer stays where it is, counted from the end, when the buffer grows. */
  lemma SubPrepend(front: seq<Byte>, data: seq<Byte>, o: nat, n: nat)
    requires n <= o <= |data|
    ensures Sub(front + data, o, n) == Sub(data, o, n)
  {
  }

  lemma SubFront(front: seq<Byte>, data: seq<Byte>)
    ensures Sub(front + data, |front| + |data|, |front|) == front
  {
  }

  lemma SubSub(data: seq<Byte>, o: nat, n: nat, from: nat, m: nat)
    requires n <= o <= |data| && from + m <= n
    ensures Sub(data, o - from, m) == Sub(data, o, n)[from..from + m]
  {
    var a := |data| - o;
    var part, whole := Sub(data, o - from, m), Sub(data, o, n)[from..from + m];
    forall k | 0 <= k < m ensures part[k] == whole[k] {
      assert part[k] == data[a + from + k];
    }
  }

  // ----- Alignment ----------------------------------------------------------------------------

  /** a % n, by counting down. */
  function Over(a: nat, n: nat): nat
    requires n > 0
  {
    if a < n then a else Over(a - n, n)
  }

  lemma {:induction false} OverIsMod(a: nat, n: nat)
    requires n > 0
    ensures Over(a, n) == a % n
  {
    if a >= n {
      OverIsMod(a - n, n);
      assert a - n == n * ((a - n) / n) + (a - n) % n;
      Remainder(a, n, (a - n) / n + 1, (a - n) % n);
    }
  }

  lemma Multiple(m: nat, k: nat)
    requires m > 0
    ensures Over(m * k, m) == 0
  {
    OverIsMod(m * k, m);
    Remainder(m * k, m, k, 0);
  }

  lemma Remainder(v: int, m: nat, q: int, r: nat)
    requires m > 0 && v == m * q + r && r < m
    ensures v % m == r && v / m == q
  {
    assert v == m * (v / m) + v % m;
    var k: int := v / m;
    AtLeast(m, k - q);
    assert m * k == m * q + m * (k - q);
  }

  lemma AtLeast(m: nat, d: int)
    requires m > 0
    ensures d >= 1 ==> m * d >= m
    ensures d <= -1 ==> m * d + m <= 0
  {
  }

  lemma {:induction false} SumAligned(a: nat, b: nat, m: nat)
    requires m > 0 && Over(a, m) == 0 && Over(b, m) == 0
    ensures Over(a + b, m) == 0
  {
    if a > 0 {
      SumAligned(a - m, b, m);
    }
  }

  lemma {:induction false} DifferenceAligned(a: nat, b: nat, m: nat)
    requires m > 0 && b <= a && Over(a, m) == 0 && Over(b, m) == 0
    ensures Over(a - b, m) == 0
  {
    if b > 0 {
      DifferenceAligned(a - m, b - m, m);
    }
  }

  /** Being a multiple of m means being one of any divisor of m. */
  lemma {:induction false} AlignedDown(a: nat, m: nat, n: nat)
    requires n > 0 && m > 0 && Over(a, m) == 0 && Over(m, n) == 0
    ensures Over(a, n) == 0
  {
    if a > 0 {
      AlignedDown(a - m, m, n);
      SumAligned(a - m, m, n);
    }
  }

  /** Of two powers of two, the smaller divides the larger. */
  lemma {:induction false} PowersDivide(d: nat, e: nat)
    requires d <= e
    ensures Over(Pow2(e), Pow2(d)) == 0
  {
    if d < e {
      PowersDivide(d, e - 1);
      SumAligned(Pow2(e - 1), Pow2(e - 1), Pow2(d));
    }
  }

  lemma Divides(a: nat, b: nat)
    requires IsPow2(a) && IsPow2(b) && a <= b
    ensures a > 0 && Over(b, a) == 0
  {
    var d: nat :| a == Pow2(d);
    var e: nat :| b == Pow2(e);
    if d <= e {
      PowersDivide(d, e);
    } else {
      Pow2Monotone(e, d);
      PowersDivide(d, d);
    }
  }

  lemma SmallPowers()
    ensures IsPow2(1) && IsPow2(2) && IsPow2(4) && IsPow2(8)
  {
    assert Pow2(0) == 1;
    assert Pow2(1) == 2;
    assert Pow2(2) == 4;
    assert Pow2(3) == 8;
  }

  /** The least padding that makes the size a multiple of the alignment. */
  function Pad(size: nat, align: nat): (p: nat)
    requires align > 0
    ensures p < align && Over(size + p, align) == 0
    ensures Over(size, align) == 0 ==> p == 0
  {
    OverBelow(size, align);
    if Over(size, align) == 0 then 0 else align - Over(size, align)
  }

  lemma {:induction false} OverBelow(size: nat, align: nat)
    requires align > 0
    ensures Over(size, align) < align
    ensures Over(size + align - Over(size, align), align) == 0
  {
    if size >= align {
      OverBelow(size - align, align);
    }
  }

  /** There is no other such padding. */
  lemma PadIsLeast(size: nat, align: nat, p: nat)
    requires p < align && Over(size + p, align) == 0
    ensures p == Pad(size, align)
  {
    var q := Pad(size, align);
    if p < q {
      DifferenceAligned(size + q, size + p, align);
    } else {
      DifferenceAligned(size + p, size + q, align);
    }
  }

  /** PaddingBytes: ((~size) + 1) & (align - 1), on words of w bits. */
  function PaddingBytes(size: nat, align: nat, w: nat): nat
    requires size <= Pow2(w) && align > 0
  {
    Value(And(ToBits(Pow2(w) - size, w), ToBits(align - 1, w)))
  }

  /** The bit trick computes the least padding. */
  lemma PaddingBytesIsPad(size: nat, align: nat, w: nat, p: nat)
    requires size <= Pow2(w) && IsPow2(align) && align <= Pow2(w)
    requires p == PaddingBytes(size, align, w)
    ensures p == Pad(size, align)
  {
    var e: nat :| align == Pow2(e);
    if e > w {
      Pow2Monotone(w + 1, e);
    }
    MaskedIsLow(Pow2(w) - size, e, w, ToBits(Pow2(w) - size, w), ToBits(align - 1, w));
    LowComplement(size, e, w);
  }

  lemma MaskedIsLow(v: nat, e: nat, w: nat, a: Bits, b: Bits)
    requires e <= w && a == ToBits(v, w) && b == ToBits(Pow2(e) - 1, w)
    ensures Value(And(a, b)) == Low(v, e)
  {
    Ones(e, w, b);
    MaskLow(a, b, e);
    LowBits(v, w, e);
  }

  lemma LowComplement(size: nat, e: nat, w: nat)
    requires e <= w && size <= Pow2(w)
    ensures Low(Pow2(w) - size, e) == Pad(size, Pow2(e))
  {
    LowIsMod(Pow2(w) - size, e);
    OverIsMod(Pow2(w) - size, Pow2(e));
    PowersDivide(e, w);
    Complement(size, Pow2(w), Pow2(e));
    PadIsLeast(size, Pow2(e), Over(Pow2(w) - size, Pow2(e)));
  }

  lemma {:induction false} Complement(size: nat, whole: nat, m: nat)
    requires m > 0 && size <= whole && Over(whole, m) == 0
    ensures Over(whole - size, m) < m && Over(size + Over(whole - size, m), m) == 0
  {
    if whole - size >= m {
      Complement(size, whole - m, m);
    }
  }

  /** The e low bits. */
  function Low(v: nat, e: nat): nat {
    if e == 0 then 0 else v % 2 + 2 * Low(v / 2, e - 1)
  }

  lemma {:induction false} LowIsMod(v: nat, e: nat)
    ensures Low(v, e) == v % Pow2(e)
  {
    if e > 0 {
      LowIsMod(v / 2, e - 1);
      ModTwice(v, Pow2(e - 1));
    }
  }

  /** Masking with e ones keeps the e low bits. */
  lemma {:induction false} MaskLow(a: Bits, b: Bits, e: nat)
    requires e <= |a| == |b| && forall i | 0 <= i < |b| :: b[i] <==> i < e
    ensures Value(And(a, b)) == Low(Value(a), e)
  {
    if e == 0 {
      assert forall i | 0 <= i < |b| :: And(a, b)[i] <==> i < 0;
      LowOnes(And(a, b), 0);
    } else {
      assert And(a, b)[1..] == And(a[1..], b[1..]);
      MaskLow(a[1..], b[1..], e - 1);
    }
  }

  lemma {:induction false} LowBits(v: nat, w: nat, e: nat)
    requires e <= w
    ensures Low(Value(ToBits(v, w)), e) == Low(v, e)
  {
    if e > 0 {
      LowBits(v / 2, w - 1, e - 1);
      assert ToBits(v, w)[1..] == ToBits(v / 2, w - 1);
    }
  }

  lemma {:induction false} Ones(e: nat, w: nat, b: Bits)
    requires e <= w && b == ToBits(Pow2(e) - 1, w)
    ensures forall i | 0 <= i < |b| :: b[i] <==> i < e
  {
    if e == 0 {
      ZeroBits(w);
    } else {
      assert (2 * Pow2(e - 1) - 1) / 2 == Pow2(e - 1) - 1 && (2 * Pow2(e - 1) - 1) % 2 == 1;
      Ones(e - 1, w - 1, b[1..]);
      assert b == [b[0]] + b[1..];
    }
  }

  lemma ModTwice(v: nat, m: nat)
    requires m > 0
    ensures v % (2 * m) == v % 2 + 2 * ((v / 2) % m)
  {
    var q, r := (v / 2) / m, (v / 2) % m;
    assert v == 2 * (m * q + r) + v % 2;
    assert 2 * (m * q) == (2 * m) * q;
    Remainder(v, 2 * m, q, v % 2 + 2 * r);
  }
}
