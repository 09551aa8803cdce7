/** The Internet checksum of check_sum/check_sum.c, section 1 of RFC 1071. */
module Checksum {
  const W16: nat := 0x1_0000
  const W32: nat := 0x1_0000_0000

  type Byte = b: nat | b < 256
  type Word16 = w: nat | w < W16
  type Word32 = w: nat | w < W32

  /** The one's-complement sum: the representative of x modulo 65535 that is 0 only for x = 0. */
  function Folded(x: nat): (r: Word16)
  {
    if x == 0 then 0 else 1 + (x - 1) % 0xffff
  }

  function Fold(x: nat): nat {
    x / W16 + x % W16
  }

  function Not16(x: Word16): Word16 {
    0xffff - x
  }

  lemma FoldKeeps(x: nat)
    ensures Folded(Fold(x)) == Folded(x)
  {
    var q := x / W16;
    assert x == Fold(x) + 0xffff * q;
    if x > 0 {
      assert Fold(x) > 0;
      Residue(x - 1, Fold(x) - 1, q);
    }
  }

  lemma Residue(a: nat, b: nat, q: nat)
    requires a == b + 0xffff * q
    ensures a % 0xffff == b % 0xffff
  {
  }

  /** A fold of a number of more than 16 bits makes it smaller. */
  lemma FoldShrinks(x: nat)
    requires x >= W16
    ensures Fold(x) < x
  {
  }

  lemma FoldedSmall(x: nat)
    requires x < W16
    ensures Folded(x) == x
  {
  }

  /** Two folds suffice for any 32-bit sum. */
  lemma TwoFoldsSuffice(sum: nat)
    requires sum < W32
    ensures Fold(Fold(sum)) < W16 && Fold(Fold(sum)) == Folded(sum)
  {
    FoldKeeps(sum);
    FoldKeeps(Fold(sum));
    FoldedSmall(Fold(Fold(sum)));
  }

  /** while (cksum >> 16) cksum = (cksum & 0xFFFF) + (cksum >> 16); */
  method FoldAll(sum: nat) returns (r: Word16)
    ensures r == Folded(sum)
  {
    var x: nat := sum;
    while x / W16 != 0
      invariant Folded(x) == Folded(sum)
      decreases x
    {
      FoldKeeps(x);
      FoldShrinks(x);
      x := x % W16 + x / W16;
    }
    FoldedSmall(x);
    r := x;
  }

  /** sum = (sum >> 16) + (sum & 0xffff); sum += sum >> 16; and the low 16 bits of the result. */
  method FoldTwice(sum: Word32) returns (r: Word16)
    ensures r == Folded(sum)
  {
    TwoFoldsSuffice(sum);
    var once: nat := sum / W16 + sum % W16;
    var twice: nat := once + once / W16;
    r := twice % W16;
  }

  // ----- checksum_16 --------------------------------------------------------------------------

  function Sum(words: seq<Word16>): nat {
    if words == [] then 0 else words[0] + Sum(words[1..])
  }

  lemma {:induction false} SumBound(words: seq<Word16>)
    ensures Sum(words) <= 0xffff * |words|
  {
    if words != [] {
      SumBound(words[1..]);
    }
  }

  lemma {:induction false} SumFrom(words: seq<Word16>, i: nat)
    requires i < |words|
    ensures Sum(words[i..]) == words[i] + Sum(words[i + 1..])
  {
    assert words[i..][1..] == words[i + 1..];
  }

  lemma {:induction false} SumUpdate(words: seq<Word16>, i: nat, w: Word16)
    requires i < |words|
    ensures Sum(words[i := w]) + words[i] == Sum(words) + w
  {
    if i == 0 {
      assert words[i := w][1..] == words[1..];
    } else {
      assert words[i := w][1..] == words[1..][i - 1 := w];
      SumUpdate(words[1..], i - 1, w);
    }
  }

  /** An unsigned int. */
  function Wrap(x: nat): Word32 {
    x % W32
  }

  lemma WrapAdd(a: nat, b: nat)
    ensures Wrap(Wrap(a) + b) == Wrap(a + b)
  {
  }

  lemma {:induction false} SumStep(sum: Word32, words: seq<Word16>, i: nat)
    requires i < |words|
    ensures Wrap(Wrap(sum + words[i]) + Sum(words[i + 1..])) == Wrap(sum + Sum(words[i..]))
  {
    SumFrom(words, i);
    WrapAdd(sum + words[i], Sum(words[i + 1..]));
  }

  /** What checksum_16 adds up: the words, and of an odd last byte its value, in 32 bits. */
  function Total(words: seq<Word16>, odd: seq<Byte>): Word32 {
    Wrap(Sum(words) + if odd == [] then 0 else odd[0])
  }

  /** checksum_16, on a buffer of words and, if its length is odd, one more byte. */
  method Checksum16(words: seq<Word16>, odd: seq<Byte>) returns (r: Word16)
    requires |odd| <= 1
    ensures r == Not16(Folded(Total(words, odd)))
  {
    var sum: Word32, len: int, i: nat := 0, 2 * |words| + |odd|, 0;
    assert words[0..] == words;
    while len > 1
      invariant i <= |words| && len == 2 * (|words| - i) + |odd|
      invariant Wrap(sum + Sum(words[i..])) == Wrap(Sum(words))
    {
      SumStep(sum, words, i);
      sum := Wrap(sum + words[i]);
      i := i + 1;
      len := len - 2;
    }
    assert words[i..] == [] && Wrap(sum) == sum;
    if len == 1 {
      WrapAdd(Sum(words), odd[0]);
      sum := Wrap(sum + odd[0]);
    }
    var folded := FoldTwice(sum);
    r := Not16(folded);
  }

  /** For an even-length buffer of any size, even one whose sum wraps around, storing the checksum in a
      zeroed word makes the checksum of the buffer 0. */
  lemma StoredChecksumIsRight(words: seq<Word16>, k: nat)
    requires k < |words| && words[k] == 0
    ensures Not16(Folded(Total(words[k := Not16(Folded(Total(words, [])))], []))) == 0
  {
    var t := Total(words, []);
    var c := Not16(Folded(t));
    SumUpdate(words, k, c);
    WrapAdd(Sum(words), c);
    Settles(t);
  }

  lemma Settles(t: Word32)
    ensures Not16(Folded(Wrap(t + Not16(Folded(t))))) == 0
  {
    Complements(t);
    NeverOverflows(t);
  }

  /** Adding the complement to a wrapped sum never wraps again. */
  lemma NeverOverflows(t: Word32)
    ensures t + Not16(Folded(t)) < W32
  {
    var c := Not16(Folded(t));
    Complements(t);
    var m := (t + c) / 0xffff;
    assert t + c == 0xffff * m;
    assert m >= 65538 ==> t == W32 - 1;
  }

  lemma Complements(s: nat)
    ensures Folded(s + Not16(Folded(s))) == 0xffff
  {
    if s > 0 {
      var q := (s - 1) / 0xffff;
      assert s + Not16(Folded(s)) - 1 == 0xffff * q + 0xfffe;
    }
  }

  /** And conversely any other value in that word is noticed, unless it is the other representation of
      the same residue; for that the sum must not wrap around. */
  lemma OtherValueIsNoticed(words: seq<Word16>, k: nat, w: Word16)
    requires |words| <= 65537 && k < |words| && words[k] == 0
    ensures var c := Not16(Folded(Total(words, [])));
      Not16(Folded(Total(words[k := w], []))) == 0 <==> w % 0xffff == c % 0xffff && Sum(words) + w > 0
  {
    var c := Not16(Folded(Total(words, [])));
    SumBound(words);
    SumBound(words[k := w]);
    SumUpdate(words, k, w);
    var s := Sum(words);
    assert Total(words, []) == s && Total(words[k := w], []) == s + w;
    Complements(s);
    SameResidue(s, w, c);
  }

  lemma SameResidue(s: nat, w: Word16, c: Word16)
    requires c == Not16(Folded(s)) && Folded(s + c) == 0xffff
    ensures Folded(s + w) == 0xffff <==> w % 0xffff == c % 0xffff && s + w > 0
  {
    var x, y := s + w, s + c;
    assert Folded(x) == 0xffff <==> x > 0 && x % 0xffff == 0;
    assert y % 0xffff == 0;
  }

  // ----- checksum_8 ---------------------------------------------------------------------------

  function Pair(high: Byte, low: Byte): Word16 {
    var h: nat, l: nat := high, low;
    256 * h + l
  }

  /** The bytes as big-endian words, the last one padded with a zero byte. */
  function Words(bytes: seq<Byte>): seq<Word16> {
    if |bytes| == 0 then []
    else if |bytes| == 1 then [Pair(bytes[0], 0)]
    else [Pair(bytes[0], bytes[1])] + Words(bytes[2..])
  }

  lemma {:induction false} WordsStep(sum: Word32, bytes: seq<Byte>, i: nat)
    requires i + 1 < |bytes|
    ensures Wrap(Wrap(sum + Pair(bytes[i], bytes[i + 1])) + Sum(Words(bytes[i + 2..])))
      == Wrap(sum + Sum(Words(bytes[i..])))
  {
    var words := Words(bytes[i..]);
    assert bytes[i..][2..] == bytes[i + 2..];
    assert words[1..] == Words(bytes[i + 2..]) && words[0..] == words;
    SumStep(sum, words, 0);
  }

  /** The conversion of an int to a signed char of 8 bits. */
  function ToChar(x: int): (c: int)
    requires x >= -128
    ensures -128 <= c < 128
  {
    if x > 127 then ToChar(x - 256) else x
  }

  /** Where the code, whose index is a char, reads for byte j of the buffer. */
  function Index(j: nat): int {
    ToChar(j - j % 2) + j % 2
  }

  /** The memory around a pointer, by the distance from it. */
  type Memory = int -> Byte

  function Taken(p: Memory, size: nat): (bytes: seq<Byte>)
    ensures |bytes| == size
  {
    seq(size, j requires 0 <= j => p(Index(j)))
  }

  function Buffer(p: Memory, size: nat): (bytes: seq<Byte>)
    ensures |bytes| == size
  {
    seq(size, j => p(j))
  }

  lemma IndexSmall(j: nat)
    requires j < 128
    ensures Index(j) == j
  {
  }

  /** The code reads inside of the buffer if and only if it has at most 128 bytes. */
  lemma ReadsInside(size: nat)
    ensures (forall j | 0 <= j < size :: 0 <= Index(j) < size) <==> size <= 128
  {
    if size > 128 {
      assert Index(128) == -128;
    }
    forall j | 0 <= j < size && size <= 128 ensures Index(j) == j {
      IndexSmall(j);
    }
  }

  /** What it takes for the bytes are the bytes of the buffer, whatever is around it, if and only if there are at
      most 128 of them. */
  lemma TakenIsBuffer(size: nat)
    ensures (forall p: Memory :: Taken(p, size) == Buffer(p, size)) <==> size <= 128
  {
    if size > 128 {
      var p: Memory := i => if i == -128 then 1 else 0;
      assert Index(128) == -128;
      assert Taken(p, size)[128] == 1 && Buffer(p, size)[128] == 0;
    } else {
      forall p: Memory ensures Taken(p, size) == Buffer(p, size) {
        forall j | 0 <= j < size ensures Taken(p, size)[j] == Buffer(p, size)[j] {
          IndexSmall(j);
        }
      }
    }
  }

  /** The last of 129 bytes is taken from 128 bytes before the buffer. */
  lemma Misread129(p: Memory)
    ensures Taken(p, 129) == Buffer(p, 128) + [p(-128)]
  {
    forall j | 0 <= j < 128 ensures Index(j) == j {
      IndexSmall(j);
    }
    assert Index(128) == -128;
  }

  /** The index goes on as a char does. */
  lemma {:induction false} CharStep(x: int)
    requires x >= -128
    ensures ToChar(ToChar(x) + 2) == ToChar(x + 2)
    decreases x + 128
  {
    if x > 127 {
      CharStep(x - 256);
    }
  }

  lemma EvenIndex(k: nat)
    ensures Index(2 * k) == ToChar(2 * k) && Index(2 * k + 1) == ToChar(2 * k) + 1
  {
    assert (2 * k) % 2 == 0 && (2 * k + 1) % 2 == 1;
  }

  /** The loop of checksum_8 takes two bytes. */
  lemma TakeStep(p: Memory, sum: Word32, bytes: seq<Byte>, size: nat, k: nat, num: int)
    requires bytes == Taken(p, size) && 2 * k + 1 < size && num == ToChar(2 * k)
    ensures Wrap(Wrap(sum + Pair(p(num), p(num + 1))) + Sum(Words(bytes[2 * k + 2..])))
      == Wrap(sum + Sum(Words(bytes[2 * k..])))
    ensures ToChar(num + 2) == ToChar(2 * k + 2)
  {
    CharStep(2 * k);
    EvenIndex(k);
    WordsStep(sum, bytes, 2 * k);
  }

  lemma TakeLast(p: Memory, bytes: seq<Byte>, k: nat, num: int)
    requires bytes == Taken(p, 2 * k + 1) && num == ToChar(2 * k)
    ensures Sum(Words(bytes[2 * k..])) == Pair(p(num), 0)
  {
    EvenIndex(k);
    assert bytes[2 * k..] == [p(num)];
  }

  /** The first loop of checksum_8, and the last byte. */
  method SumUp(cksum: Word32, p: Memory, size: nat) returns (sum: Word32)
    ensures sum == Wrap(cksum + Sum(Words(Taken(p, size))))
  {
    var left: nat, num: int := size, 0;
    sum := cksum;
    ghost var bytes, k: nat := Taken(p, size), 0;
    assert bytes[0..] == bytes;
    while left > 1
      invariant 2 * k + left == size && num == ToChar(2 * k)
      invariant Wrap(sum + Sum(Words(bytes[2 * k..]))) == Wrap(cksum + Sum(Words(bytes)))
    {
      TakeStep(p, sum, bytes, size, k, num);
      sum := Wrap(sum + Pair(p(num), p(num + 1)));
      left := left - 2;
      num := ToChar(num + 2);
      k := k + 1;
    }
    if left > 0 {
      TakeLast(p, bytes, k, num);
      sum := Wrap(sum + Pair(p(num), 0));
    } else {
      assert bytes[2 * k..] == [] && Wrap(sum) == sum;
    }
  }

  /** checksum_8, of any number of bytes from p on. */
  method Checksum8(cksum: Word32, p: Memory, size: nat) returns (r: Word32)
    ensures r == if size == 0 then cksum else W32 - 1 - Folded(Wrap(cksum + Sum(Words(Taken(p, size)))))
  {
    if size == 0 {
      return cksum;
    }
    var sum := SumUp(cksum, p, size);
    var folded := FoldAll(sum);
    r := W32 - 1 - folded;
  }
}
