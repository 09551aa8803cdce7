/** The MessagePack objects of msgpack_flatbuffer_compare/mp/msgpack/object.hpp as bytes, in the forms of
    section "Formats" of the MessagePack specification. */
module MsgpackFormat {
  import opened Sequences

  type Byte = b: int | 0 <= b < 256

  const P7: int := 0x80
  const P8: int := 0x100
  const P15: int := 0x8000
  const P16: int := 0x1_0000
  const P31: int := 0x8000_0000
  const P32: int := 0x1_0000_0000
  const P63: int := 0x8000_0000_0000_0000
  const P64: int := 0x1_0000_0000_0000_0000

  /** An object; floating point numbers are their bits. */
  datatype Object =
    | Nil
    | Boolean(b: bool)
    | PositiveInteger(u: int)
    | NegativeInteger(i: int)
    | Float(bits: int)
    | Str(bytes: seq<Byte>)
    | Bin(bytes: seq<Byte>)
    | Ext(kind: int, bytes: seq<Byte>)
    | Array(items: seq<Object>)
    | Map(pairs: seq<Pair>)

  datatype Pair = Pair(key: Object, val: Object)

  /** Sizes are 32-bit numbers and integers 64-bit ones of the right sign. */
  predicate Good(x: Object) {
    match x
    case Nil => true
    case Boolean(_) => true
    case PositiveInteger(u) => 0 <= u < P64
    case NegativeInteger(i) => -P63 <= i < 0
    case Float(bits) => 0 <= bits < P64
    case Str(bytes) => |bytes| < P32
    case Bin(bytes) => |bytes| < P32
    case Ext(kind, bytes) => -P7 <= kind < P7 && |bytes| < P32
    case Array(items) => |items| < P32 && forall i :: 0 <= i < |items| ==> Good(items[i])
    case Map(pairs) => |pairs| < P32 && forall i :: 0 <= i < |pairs| ==> Good(pairs[i].key) && Good(pairs[i].val)
  }

  // ----- Big-endian numbers -------------------------------------------------------------------

  function Big2(n: int): (s: seq<Byte>)
    requires 0 <= n < P16
    ensures |s| == 2 && Read2(s) == n
  {
    [n / P8, n % P8]
  }

  function Read2(s: seq<Byte>): (n: int)
    requires |s| == 2
    ensures 0 <= n < P16
  {
    s[0] * P8 + s[1]
  }

  function Big4(n: int): (s: seq<Byte>)
    requires 0 <= n < P32
    ensures |s| == 4 && Read4(s) == n
  {
    var s := Big2(n / P16) + Big2(n % P16);
    assert s[..2] == Big2(n / P16) && s[2..] == Big2(n % P16);
    s
  }

  function Read4(s: seq<Byte>): (n: int)
    requires |s| == 4
    ensures 0 <= n < P32
  {
    Read2(s[..2]) * P16 + Read2(s[2..])
  }

  function Big8(n: int): (s: seq<Byte>)
    requires 0 <= n < P64
    ensures |s| == 8 && Read8(s) == n
  {
    var s := Big4(n / P32) + Big4(n % P32);
    assert s[..4] == Big4(n / P32) && s[4..] == Big4(n % P32);
    s
  }

  function Read8(s: seq<Byte>): (n: int)
    requires |s| == 8
    ensures 0 <= n < P64
  {
    Read4(s[..4]) * P32 + Read4(s[4..])
  }

  /** The two's complement of a number in a word of 2 * half values, and back. */
  function Word(d: int, half: int): (n: int)
    requires -half <= d < half
    ensures 0 <= n < 2 * half && Signed(n, half) == d
  {
    if d < 0 then d + 2 * half else d
  }

  function Signed(n: int, half: int): int {
    if n < half then n else n - 2 * half
  }

  // ----- Heads --------------------------------------------------------------------------------

  /** What is written before the bytes or the elements of an object. */
  datatype Head =
    | NilHead
    | BooleanHead(b: bool)
    | IntegerHead(d: int)
    | FloatHead(bits: int)
    | StrHead(n: int)
    | BinHead(n: int)
    | ExtHead(n: int, kind: int)
    | ArrayHead(n: int)
    | MapHead(n: int)

  predicate GoodHead(h: Head) {
    match h
    case IntegerHead(d) => -P63 <= d < P64
    case FloatHead(bits) => 0 <= bits < P64
    case ExtHead(n, kind) => 0 <= n < P32 && -P7 <= kind < P7
    case StrHead(n) => 0 <= n < P32
    case BinHead(n) => 0 <= n < P32
    case ArrayHead(n) => 0 <= n < P32
    case MapHead(n) => 0 <= n < P32
    case _ => true
  }

  /** An integer in its shortest form. */
  function WriteInteger(d: int): seq<Byte>
    requires -P63 <= d < P64
  {
    if 0 <= d < P7 then [d]
    else if 0 <= d < P8 then [0xcc, d]
    else if 0 <= d < P16 then [0xcd] + Big2(d)
    else if 0 <= d < P32 then [0xce] + Big4(d)
    else if 0 <= d then [0xcf] + Big8(d)
    else if -32 <= d then [d + 256]
    else if -P7 <= d then [0xd0, Word(d, P7)]
    else if -P15 <= d then [0xd1] + Big2(Word(d, P15))
    else if -P31 <= d then [0xd2] + Big4(Word(d, P31))
    else [0xd3] + Big8(Word(d, P63))
  }

  function WriteSize(n: int, fix: Byte, limit: int, two: Byte, four: Byte): seq<Byte>
    requires 0 <= n < P32 && 0 <= limit <= 32 && fix + limit <= 256
  {
    if n < limit then [fix + n] else if n < P16 then [two] + Big2(n) else [four] + Big4(n)
  }

  function WriteHead(h: Head): seq<Byte>
    requires GoodHead(h)
  {
    match h
    case NilHead => [0xc0]
    case BooleanHead(b) => [if b then 0xc3 else 0xc2]
    case IntegerHead(d) => WriteInteger(d)
    case FloatHead(bits) => [0xcb] + Big8(bits)
    case StrHead(n) => if 32 <= n < P8 then [0xd9, n] else WriteSize(n, 0xa0, 32, 0xda, 0xdb)
    case BinHead(n) => if n < P8 then [0xc4, n] else WriteSize(n, 0x80, 0, 0xc5, 0xc6)
    case ExtHead(n, kind) =>
      var t := Word(kind, P7);
      if n == 1 then [0xd4, t]
      else if n == 2 then [0xd5, t]
      else if n == 4 then [0xd6, t]
      else if n == 8 then [0xd7, t]
      else if n == 16 then [0xd8, t]
      else if n < P8 then [0xc7, n, t]
      else if n < P16 then [0xc8] + Big2(n) + [t]
      else [0xc9] + Big4(n) + [t]
    case ArrayHead(n) => WriteSize(n, 0x90, 16, 0xdc, 0xdd)
    case MapHead(n) => WriteSize(n, 0x80, 16, 0xde, 0xdf)
  }

  // ----- Reading ------------------------------------------------------------------------------

  datatype Read<T> = Got(value: T, rest: seq<Byte>) | Bad

  function Taking(s: seq<Byte>, n: nat): Read<seq<Byte>> {
    if |s| < n then Bad else Got(s[..n], s[n..])
  }

  /** A head in any of the forms of the specification, but for numbers of single precision, which are never
      written. */
  function ReadHead(s: seq<Byte>): (r: Read<Head>)
    ensures r.Got? ==> |r.rest| < |s| && GoodHead(r.value)
  {
    if s == [] then Bad
    else
      var c: int, t := s[0], s[1..];
      if c < 0x80 then Got(IntegerHead(c), t)
      else if c < 0xc0 then Got(FixHead(c), t)
      else if c >= 0xe0 then Got(IntegerHead(c - 256), t)
      else if c == 0xc0 then Got(NilHead, t)
      else if c == 0xc2 then Got(BooleanHead(false), t)
      else if c == 0xc3 then Got(BooleanHead(true), t)
      else if 0xd4 <= c <= 0xd8 then
        if t == [] then Bad
        else
          var n :=
            if c == 0xd4 then 1 else if c == 0xd5 then 2 else if c == 0xd6 then 4 else if c == 0xd7 then 8 else 16;
          Got(ExtHead(n, Signed(t[0], P7)), t[1..])
      else
        var width := Width(c);
        if width == 0 || |t| < width then Bad else Got(Sized(c, t[..width]), t[width..])
  }

  /** A small size in the first byte. */
  function FixHead(c: int): (h: Head)
    requires 0x80 <= c < 0xc0
    ensures GoodHead(h)
  {
    if c < 0x90 then MapHead(c - 0x80) else if c < 0xa0 then ArrayHead(c - 0x90) else StrHead(c - 0xa0)
  }

  /** The number of bytes that follow the first byte c of a head. */
  function Width(c: Byte): (w: nat)
    ensures w <= 8
  {
    if c == 0xc4 || c == 0xcc || c == 0xd0 || c == 0xd9 then 1
    else if c == 0xc5 || c == 0xcd || c == 0xd1 || c == 0xda || c == 0xdc || c == 0xde || c == 0xc7 then 2
    else if c == 0xc8 then 3
    else if c == 0xc6 || c == 0xce || c == 0xd2 || c == 0xdb || c == 0xdd || c == 0xdf then 4
    else if c == 0xc9 then 5
    else if c == 0xcb || c == 0xcf || c == 0xd3 then 8
    else 0
  }

  /** What these bytes mean. */
  function Sized(c: Byte, b: seq<Byte>): (h: Head)
    requires |b| == Width(c) > 0
    ensures GoodHead(h)
  {
    if c == 0xc4 then BinHead(b[0])
    else if c == 0xc5 then BinHead(Read2(b))
    else if c == 0xc6 then BinHead(Read4(b))
    else if c == 0xc7 then ExtHead(b[0], Signed(b[1], P7))
    else if c == 0xc8 then ExtHead(Read2(b[..2]), Signed(b[2], P7))
    else if c == 0xc9 then ExtHead(Read4(b[..4]), Signed(b[4], P7))
    else if c == 0xcb then FloatHead(Read8(b))
    else if c == 0xcc then IntegerHead(b[0])
    else if c == 0xcd then IntegerHead(Read2(b))
    else if c == 0xce then IntegerHead(Read4(b))
    else if c == 0xcf then IntegerHead(Read8(b))
    else if c == 0xd0 then IntegerHead(Signed(b[0], P7))
    else if c == 0xd1 then IntegerHead(Signed(Read2(b), P15))
    else if c == 0xd2 then IntegerHead(Signed(Read4(b), P31))
    else if c == 0xd3 then IntegerHead(Signed(Read8(b), P63))
    else if c == 0xd9 then StrHead(b[0])
    else if c == 0xda then StrHead(Read2(b))
    else if c == 0xdb then StrHead(Read4(b))
    else if c == 0xdc then ArrayHead(Read2(b))
    else if c == 0xdd then ArrayHead(Read4(b))
    else if c == 0xde then MapHead(Read2(b))
    else MapHead(Read4(b))
  }

  /** Reading bytes of a known number behind the first one. */
  lemma {:induction false} SizedBack(c: Byte, b: seq<Byte>, r: seq<Byte>)
    requires |b| == Width(c) > 0
    ensures ReadHead([c] + b + r) == Got(Sized(c, b), r)
  {
    var s := [c] + b + r;
    assert s[1..] == b + r && (b + r)[..|b|] == b && (b + r)[|b|..] == r;
  }

  /** A head of one byte. */
  lemma {:induction false} ShortBack(c: Byte, r: seq<Byte>, h: Head)
    requires c < 0xc0 || c >= 0xe0 || c == 0xc0 || c == 0xc2 || c == 0xc3
    requires ReadHead([c]) == Got(h, [])
    ensures ReadHead([c] + r) == Got(h, r)
  {
    assert ([c] + r)[1..] == r;
  }

  lemma {:induction false} IntegerBack(d: int, r: seq<Byte>)
    requires -P63 <= d < P64
    ensures ReadHead(WriteInteger(d) + r) == Got(IntegerHead(d), r)
  {
    var s := WriteInteger(d);
    if -32 <= d < P7 {
      ShortBack(s[0], r, IntegerHead(d));
    } else {
      assert s == [s[0]] + s[1..];
      SizedBack(s[0], s[1..], r);
    }
  }

  lemma {:induction false} SizeBack(n: int, fix: Byte, limit: int, two: Byte, four: Byte, r: seq<Byte>)
    requires 0 <= n < P32 && 0 <= limit <= 32 && fix + limit <= 256
    requires 0x80 <= fix && fix + limit <= 0xc0 && Width(two) == 2 && Width(four) == 4
    ensures var s := WriteSize(n, fix, limit, two, four);
      ReadHead(s + r) ==
        if n < limit then Got(FixHead(fix + n), r)
        else if n < P16 then Got(Sized(two, Big2(n)), r)
        else Got(Sized(four, Big4(n)), r)
  {
    if n < limit {
      ShortBack(fix + n, r, FixHead(fix + n));
    } else if n < P16 {
      SizedBack(two, Big2(n), r);
    } else {
      SizedBack(four, Big4(n), r);
    }
  }

  lemma {:induction false} ExtBack(n: int, kind: int, r: seq<Byte>)
    requires GoodHead(ExtHead(n, kind))
    ensures ReadHead(WriteHead(ExtHead(n, kind)) + r) == Got(ExtHead(n, kind), r)
  {
    var t, s := Word(kind, P7), WriteHead(ExtHead(n, kind));
    if n == 1 || n == 2 || n == 4 || n == 8 || n == 16 {
      assert s == [s[0], t];
      assert (s + r)[1..] == [t] + r && ([t] + r)[1..] == r;
    } else if n < P8 {
      assert s == [0xc7] + [n, t];
      SizedBack(0xc7, [n, t], r);
    } else if n < P16 {
      var b := Big2(n) + [t];
      assert s == [0xc8] + b && b[..2] == Big2(n);
      SizedBack(0xc8, b, r);
    } else {
      var b := Big4(n) + [t];
      assert s == [0xc9] + b && b[..4] == Big4(n);
      SizedBack(0xc9, b, r);
    }
  }

  lemma {:induction false} StrBack(n: int, r: seq<Byte>)
    requires 0 <= n < P32
    ensures ReadHead(WriteHead(StrHead(n)) + r) == Got(StrHead(n), r)
  {
    if 32 <= n < P8 {
      assert [0xd9, n] == [0xd9] + [n];
      SizedBack(0xd9, [n], r);
    } else {
      SizeBack(n, 0xa0, 32, 0xda, 0xdb, r);
    }
  }

  lemma {:induction false} BinBack(n: int, r: seq<Byte>)
    requires 0 <= n < P32
    ensures ReadHead(WriteHead(BinHead(n)) + r) == Got(BinHead(n), r)
  {
    if n < P8 {
      assert [0xc4, n] == [0xc4] + [n];
      SizedBack(0xc4, [n], r);
    } else {
      SizeBack(n, 0x80, 0, 0xc5, 0xc6, r);
    }
  }

  lemma {:induction false} CountBack(n: int, r: seq<Byte>)
    requires 0 <= n < P32
    ensures ReadHead(WriteHead(ArrayHead(n)) + r) == Got(ArrayHead(n), r)
    ensures ReadHead(WriteHead(MapHead(n)) + r) == Got(MapHead(n), r)
  {
    SizeBack(n, 0x90, 16, 0xdc, 0xdd, r);
    SizeBack(n, 0x80, 16, 0xde, 0xdf, r);
  }

  /** A head is read back, whatever follows. */
  lemma {:induction false} HeadBack(h: Head, r: seq<Byte>)
    requires GoodHead(h)
    ensures ReadHead(WriteHead(h) + r) == Got(h, r)
  {
    match h {
      case NilHead => ShortBack(0xc0, r, h);
      case BooleanHead(b) => ShortBack(if b then 0xc3 else 0xc2, r, h);
      case IntegerHead(d) => IntegerBack(d, r);
      case FloatHead(bits) => SizedBack(0xcb, Big8(bits), r);
      case StrHead(n) => StrBack(n, r);
      case BinHead(n) => BinBack(n, r);
      case ExtHead(n, kind) => ExtBack(n, kind, r);
      case ArrayHead(n) => CountBack(n, r);
      case MapHead(n) => CountBack(n, r);
    }
  }

  /** A first byte that says how wide what follows is. */
  lemma {:induction false} WideHead(h: Head, s: seq<Byte>)
    requires ReadHead(s) == Got(h, []) && Width(s[0]) > 0
    ensures |s| == 1 + Width(s[0]) && s[1..][..Width(s[0])] == s[1..]
  {
  }

  lemma {:induction false} IntegerIsShort(d: int, s: seq<Byte>)
    requires -P63 <= d < P64 && ReadHead(s) == Got(IntegerHead(d), [])
    ensures |WriteInteger(d)| <= |s|
  {
    if Width(s[0]) > 0 {
      WideHead(IntegerHead(d), s);
    }
  }

  lemma {:induction false} SizeIsShort(h: Head, s: seq<Byte>)
    requires GoodHead(h) && ReadHead(s) == Got(h, [])
    requires h.StrHead? || h.BinHead? || h.ArrayHead? || h.MapHead?
    ensures |WriteHead(h)| <= |s|
  {
    if Width(s[0]) > 0 {
      WideHead(h, s);
    }
  }

  lemma {:induction false} ExtIsShort(n: int, kind: int, s: seq<Byte>)
    requires GoodHead(ExtHead(n, kind)) && ReadHead(s) == Got(ExtHead(n, kind), [])
    ensures |WriteHead(ExtHead(n, kind))| <= |s|
  {
    if Width(s[0]) > 0 {
      WideHead(ExtHead(n, kind), s);
    }
  }

  /** No form of a head is shorter than the one written. */
  lemma {:induction false} HeadIsShort(h: Head, s: seq<Byte>)
    requires GoodHead(h) && ReadHead(s) == Got(h, [])
    ensures |WriteHead(h)| <= |s|
  {
    match h {
      case NilHead =>
      case BooleanHead(_) =>
      case IntegerHead(d) => IntegerIsShort(d, s);
      case FloatHead(_) =>
        if Width(s[0]) > 0 {
          WideHead(h, s);
        }
      case ExtHead(n, kind) => ExtIsShort(n, kind, s);
      case _ => SizeIsShort(h, s);
    }
  }

  // ----- Objects ------------------------------------------------------------------------------

  function HeadOf(x: Object): Head {
    match x
    case Nil => NilHead
    case Boolean(b) => BooleanHead(b)
    case PositiveInteger(u) => IntegerHead(u)
    case NegativeInteger(i) => IntegerHead(i)
    case Float(bits) => FloatHead(bits)
    case Str(bytes) => StrHead(|bytes|)
    case Bin(bytes) => BinHead(|bytes|)
    case Ext(kind, bytes) => ExtHead(|bytes|, kind)
    case Array(items) => ArrayHead(|items|)
    case Map(pairs) => MapHead(|pairs|)
  }

  function Write(x: Object): seq<Byte>
    requires Good(x)
  {
    match x
    case Str(bytes) => WriteHead(HeadOf(x)) + bytes
    case Bin(bytes) => WriteHead(HeadOf(x)) + bytes
    case Ext(_, bytes) => WriteHead(HeadOf(x)) + bytes
    case Array(items) => WriteHead(HeadOf(x)) + WriteAll(items)
    case Map(pairs) => WriteHead(HeadOf(x)) + WritePairs(pairs)
    case _ => WriteHead(HeadOf(x))
  }

  function WriteAll(xs: seq<Object>): seq<Byte>
    requires forall i :: 0 <= i < |xs| ==> Good(xs[i])
  {
    if xs == [] then [] else Write(xs[0]) + WriteAll(xs[1..])
  }

  function WritePairs(ps: seq<Pair>): seq<Byte>
    requires forall i :: 0 <= i < |ps| ==> Good(ps[i].key) && Good(ps[i].val)
  {
    if ps == [] then [] else WritePair(ps[0]) + WritePairs(ps[1..])
  }

  function WritePair(p: Pair): seq<Byte>
    requires Good(p.key) && Good(p.val)
  {
    Write(p.key) + Write(p.val)
  }

  function ReadObject(s: seq<Byte>): (r: Read<Object>)
    ensures r.Got? ==> |r.rest| < |s|
    decreases |s|, 0
  {
    match ReadHead(s)
    case Bad => Bad
    case Got(h, t) =>
      match h
      case NilHead => Got(Nil, t)
      case BooleanHead(b) => Got(Boolean(b), t)
      case IntegerHead(d) => Got(if d >= 0 then PositiveInteger(d) else NegativeInteger(d), t)
      case FloatHead(bits) => Got(Float(bits), t)
      case StrHead(n) => (match Taking(t, n) case Bad => Bad case Got(b, u) => Got(Str(b), u))
      case BinHead(n) => (match Taking(t, n) case Bad => Bad case Got(b, u) => Got(Bin(b), u))
      case ExtHead(n, kind) => (match Taking(t, n) case Bad => Bad case Got(b, u) => Got(Ext(kind, b), u))
      case ArrayHead(n) => (match ReadAll(t, n) case Bad => Bad case Got(xs, u) => Got(Array(xs), u))
      case MapHead(n) => (match ReadPairs(t, n) case Bad => Bad case Got(ps, u) => Got(Map(ps), u))
  }

  function ReadAll(s: seq<Byte>, n: nat): (r: Read<seq<Object>>)
    ensures r.Got? ==> |r.rest| <= |s|
    decreases |s|, n + 1
  {
    if n == 0 then Got([], s)
    else
      match ReadObject(s)
      case Bad => Bad
      case Got(x, t) => (match ReadAll(t, n - 1) case Bad => Bad case Got(xs, u) => Got([x] + xs, u))
  }

  function ReadPairs(s: seq<Byte>, n: nat): (r: Read<seq<Pair>>)
    ensures r.Got? ==> |r.rest| <= |s|
    decreases |s|, n + 1
  {
    if n == 0 then Got([], s)
    else
      match ReadObject(s)
      case Bad => Bad
      case Got(k, t) =>
        match ReadObject(t)
        case Bad => Bad
        case Got(v, u) => (match ReadPairs(u, n - 1) case Bad => Bad case Got(ps, w) => Got([Pair(k, v)] + ps, w))
  }

  /** An object is read back, whatever follows. */
  lemma {:induction false} ObjectBack(x: Object, r: seq<Byte>)
    requires Good(x)
    ensures ReadObject(Write(x) + r) == Got(x, r)
    decreases x, 0
  {
    match x {
      case Str(bytes) => BytesBack(bytes, r);
        BodyBack(x, bytes, r);
      case Bin(bytes) => BytesBack(bytes, r);
        BodyBack(x, bytes, r);
      case Ext(_, bytes) => BytesBack(bytes, r);
        BodyBack(x, bytes, r);
      case Array(items) => AllBack(items, r);
        BodyBack(x, WriteAll(items), r);
      case Map(pairs) => PairsBack(pairs, r);
        BodyBack(x, WritePairs(pairs), r);
      case _ => HeadBack(HeadOf(x), r);
    }
  }

  lemma {:induction false} BodyBack(x: Object, body: seq<Byte>, r: seq<Byte>)
    requires GoodHead(HeadOf(x))
    ensures ReadHead((WriteHead(HeadOf(x)) + body) + r) == Got(HeadOf(x), body + r)
  {
    var head := WriteHead(HeadOf(x));
    Assoc(head, body, r);
    HeadBack(HeadOf(x), body + r);
  }

  lemma {:induction false} BytesBack(bytes: seq<Byte>, r: seq<Byte>)
    ensures Taking(bytes + r, |bytes|) == Got(bytes, r)
  {
    assert (bytes + r)[..|bytes|] == bytes && (bytes + r)[|bytes|..] == r;
  }

  lemma {:induction false} AllBack(xs: seq<Object>, r: seq<Byte>)
    requires forall i :: 0 <= i < |xs| ==> Good(xs[i])
    ensures ReadAll(WriteAll(xs) + r, |xs|) == Got(xs, r)
    decreases xs, 1
  {
    if xs == [] {
      assert [] + r == r;
    } else {
      var rest := WriteAll(xs[1..]) + r;
      Assoc(Write(xs[0]), WriteAll(xs[1..]), r);
      ObjectBack(xs[0], rest);
      AllBack(xs[1..], r);
      assert [xs[0]] + xs[1..] == xs;
    }
  }

  lemma {:induction false} PairsBack(ps: seq<Pair>, r: seq<Byte>)
    requires forall i :: 0 <= i < |ps| ==> Good(ps[i].key) && Good(ps[i].val)
    ensures ReadPairs(WritePairs(ps) + r, |ps|) == Got(ps, r)
    decreases ps, 1
  {
    if ps == [] {
      assert [] + r == r;
    } else {
      var rest := WritePairs(ps[1..]) + r;
      Assoc(WritePair(ps[0]), WritePairs(ps[1..]), r);
      PairBack(ps[0], rest);
      PairsBack(ps[1..], r);
      assert [ps[0]] + ps[1..] == ps;
    }
  }

  lemma {:induction false} PairBack(p: Pair, r: seq<Byte>)
    requires Good(p.key) && Good(p.val)
    ensures ReadObject(WritePair(p) + r) == Got(p.key, Write(p.val) + r)
    ensures ReadObject(Write(p.val) + r) == Got(p.val, r)
    decreases p, 0
  {
    Assoc(Write(p.key), Write(p.val), r);
    ObjectBack(p.key, Write(p.val) + r);
    ObjectBack(p.val, r);
  }

  /** Objects are uniquely decodable: from the same bytes there is only one object and one rest. */
  lemma {:induction false} UniquelyDecodable(x: Object, r: seq<Byte>, y: Object, s: seq<Byte>)
    requires Good(x) && Good(y) && Write(x) + r == Write(y) + s
    ensures x == y && r == s
  {
    ObjectBack(x, r);
    ObjectBack(y, s);
  }
}
