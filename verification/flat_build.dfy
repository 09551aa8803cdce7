/** The steps of a FlatBufferBuilder as functions of its state, and that each keeps it sound. */
module FlatBuild {
  import opened Sequences
  import opened PowersOfTwo
  import opened FlatBytes
  import opened FlatVector
  import opened FlatObjects

  // ----- Alignment and elements ---------------------------------------------------------------

  function Larger(m: nat, n: nat): nat {
    if n > m then n else m
  }

  /** Align */
  function Aligned(b: Build, n: nat): Build
    requires n > 0
  {
    b.(minalign := Larger(b.minalign, n), data := Zeros(Pad(|b.data|, n)) + b.data)
  }

  /** PreAlign */
  function PreAligned(b: Build, len: nat, n: nat): Build
    requires n > 0
  {
    b.(data := Zeros(Pad(|b.data| + len, n)) + b.data)
  }

  function Pushed(b: Build, bytes: seq<Byte>): Build {
    b.(data := bytes + b.data)
  }

  /** PushElement */
  function Element(b: Build, bytes: seq<Byte>): Build
    requires bytes != []
  {
    Pushed(Aligned(b, |bytes|), bytes)
  }

  lemma AlignedIsSound(b: Build, n: nat)
    requires Soundness(b).Sound? && IsPow2(n) && 0 < n < MAX_SIZE && |Aligned(b, n).data| < MAX_SIZE
    ensures Soundness(Aligned(b, n)).Sound?
  {
    Grown(b, Zeros(Pad(|b.data|, n)), Larger(b.minalign, n));
  }

  lemma PushedIsSound(b: Build, bytes: seq<Byte>)
    requires Soundness(b).Sound? && |Pushed(b, bytes).data| < MAX_SIZE
    ensures Soundness(Pushed(b, bytes)).Sound?
  {
    Grown(b, bytes, b.minalign);
    assert b.(data := bytes + b.data, minalign := b.minalign) == Pushed(b, bytes);
  }

  lemma PreAlignedIsSound(b: Build, len: nat, n: nat)
    requires Soundness(b).Sound? && n > 0 && |PreAligned(b, len, n).data| < MAX_SIZE
    ensures Soundness(PreAligned(b, len, n)).Sound?
  {
    PushedIsSound(b, Zeros(Pad(|b.data| + len, n)));
  }

  lemma ElementIsSound(b: Build, bytes: seq<Byte>)
    requires Soundness(b).Sound? && IsPow2(|bytes|) && bytes != [] && |Element(b, bytes).data| < MAX_SIZE
    ensures Soundness(Element(b, bytes)).Sound?
  {
    SmallPowers();
    AlignedIsSound(b, |bytes|);
    PushedIsSound(Aligned(b, |bytes|), bytes);
  }

  /** Where an element lands, it is aligned. */
  lemma ElementAligned(b: Build, bytes: seq<Byte>)
    requires bytes != []
    ensures Over(|Element(b, bytes).data|, |bytes|) == 0
    ensures Sub(Element(b, bytes).data, |Element(b, bytes).data|, |bytes|) == bytes
  {
    var n := |bytes|;
    assert Over(n, n) == 0;
    SumAligned(|Aligned(b, n).data|, n, n);
    SubFront(bytes, Aligned(b, n).data);
  }

  lemma NoPadding(b: Build, bytes: seq<Byte>)
    requires bytes != [] && Over(|b.data|, |bytes|) == 0
    ensures Element(b, bytes) == b.(minalign := Larger(b.minalign, |bytes|), data := bytes + b.data)
  {
    assert Zeros(0) + b.data == b.data;
  }

  // ----- Strings ------------------------------------------------------------------------------

  function TextBody(b: Build, s: seq<Byte>): Build {
    Pushed(Pushed(PreAligned(b, |s| + 1, 4), Zeros(1)), s)
  }

  /** CreateString */
  function WithText(b: Build, s: seq<Byte>): Build {
    var c := Element(TextBody(b, s), LE(4, |s|));
    Made(c, |c.data|, Text(s))
  }

  lemma TextLies(head: seq<Byte>, s: seq<Byte>, rest: seq<Byte>)
    requires head == LE(4, |s|) && Over(|s| + 1 + |rest|, 4) == 0 && |head + (s + (Zeros(1) + rest))| < MAX_SIZE
    ensures ObjAt(head + (s + (Zeros(1) + rest)), |head + (s + (Zeros(1) + rest))|, Text(s)).Sound?
  {
    var end := Zeros(1) + rest;
    SubFront(head, s + end);
    SubPrepend(head, s + end, |s + end|, |s|);
    SubFront(s, end);
    SubPrepend(head, s + end, |end|, 1);
    SubPrepend(s, end, |end|, 1);
    SubFront(Zeros(1), rest);
    assert Zeros(1) == [0];
  }

  lemma TextIsSound(b: Build, s: seq<Byte>)
    requires Soundness(b).Sound? && |WithText(b, s).data| < MAX_SIZE
    ensures Soundness(WithText(b, s)).Sound?
  {
    SmallPowers();
    var d := PreAligned(b, |s| + 1, 4);
    var t := TextBody(b, s);
    PreAlignedIsSound(b, |s| + 1, 4);
    PushedIsSound(d, Zeros(1));
    PushedIsSound(Pushed(d, Zeros(1)), s);
    ElementIsSound(t, LE(4, |s|));
    NoPadding(t, LE(4, |s|));
    TextLies(LE(4, |s|), s, d.data);
    StandsAlone(Element(t, LE(4, |s|)), Text(s));
  }

  lemma StandsAlone(c: Build, obj: Obj)
    requires Soundness(c).Sound? && ObjAt(c.data, |c.data|, obj).Sound? && 4 <= c.minalign
    requires match obj
      case Text(_) => true
      case Numbers(n, items) => IsPow2(n) && (items == [] || n <= c.minalign)
      case Refs(ts) => forall i | 0 <= i < |ts| :: ts[i] in c.made
      case Structs(align, _, _, _) => IsPow2(align)
      case Table(_, _, _, _) => false
    ensures Soundness(Made(c, |c.data|, obj)).Sound?
  {
    assert Stands(Made(c, |c.data|, obj), |c.data|);
    MadeIsSound(c, |c.data|, obj);
  }

  // ----- Vectors of numbers -------------------------------------------------------------------

  /** StartVector: the length and the elements will need no padding. */
  function Started(b: Build, total: nat, n: nat): Build
    requires n > 0
  {
    PreAligned(PreAligned(b, total, 4), total, n)
  }

  lemma StartedAligned(b: Build, total: nat, n: nat)
    requires IsPow2(n) && n > 0
    ensures Over(|Started(b, total, n).data| + total, n) == 0
    ensures Over(|Started(b, total, n).data| + total, 4) == 0
  {
    SmallPowers();
    var c := PreAligned(b, total, 4);
    if n <= 4 {
      Divides(n, 4);
      AlignedDown(|c.data| + total, 4, n);
    } else {
      Divides(4, n);
      AlignedDown(|Started(b, total, n).data| + total, n, 4);
    }
  }

  lemma StartedIsSound(b: Build, total: nat, n: nat)
    requires Soundness(b).Sound? && n > 0 && |Started(b, total, n).data| < MAX_SIZE
    ensures Soundness(Started(b, total, n)).Sound?
  {
    PreAlignedIsSound(b, total, 4);
    PreAlignedIsSound(PreAligned(b, total, 4), total, n);
  }

  /** The elements, the last of them first. */
  function Items(b: Build, n: nat, items: seq<nat>): (c: Build)
    requires n > 0
    ensures |b.data| <= |c.data|
    decreases items
  {
    if items == [] then b else Element(Items(b, n, items[1..]), LE(n, items[0]))
  }

  /** Elements in an aligned place lie one after the other. */
  lemma {:induction false} ItemsLie(b: Build, n: nat, items: seq<nat>)
    requires n > 0 && Over(|b.data|, n) == 0
    ensures Items(b, n, items)
         == b.(minalign := if items == [] then b.minalign else Larger(b.minalign, n), data := Flat(n, items) + b.data)
    ensures Over(|Items(b, n, items).data|, n) == 0
    decreases items
  {
    if items == [] {
      assert Flat(n, items) + b.data == b.data;
    } else {
      var rest := Items(b, n, items[1..]);
      ItemsLie(b, n, items[1..]);
      NoPadding(rest, LE(n, items[0]));
      ElementAligned(rest, LE(n, items[0]));
      Assoc(LE(n, items[0]), Flat(n, items[1..]), b.data);
    }
  }

  /** CreateVector, of numbers of n bytes. */
  function WithNumbers(b: Build, n: nat, items: seq<nat>): Build
    requires n > 0
  {
    var c := Element(NumbersBody(b, n, items), LE(4, |items|));
    Made(c, |c.data|, Numbers(n, items))
  }

  lemma NumbersLie(head: seq<Byte>, n: nat, items: seq<nat>, rest: seq<Byte>)
    requires 0 < n && head == LE(4, |items|) && |head + (Flat(n, items) + rest)| < MAX_SIZE
    requires Over(|Flat(n, items) + rest|, 4) == 0 && Over(|Flat(n, items) + rest|, n) == 0
    requires forall i | 0 <= i < |items| :: items[i] < Limit(n)
    ensures ObjAt(head + (Flat(n, items) + rest), |head + (Flat(n, items) + rest)|, Numbers(n, items)).Sound?
  {
    var body := Flat(n, items);
    NotFewer(n, items);
    SubFront(head, body + rest);
    SubPrepend(head, body + rest, |body + rest|, |body|);
    SubFront(body, rest);
    assert |head + (body + rest)| - 4 == |body + rest|;
  }

  lemma {:induction false} NotFewer(n: nat, items: seq<nat>)
    requires n > 0
    ensures |items| <= |Flat(n, items)|
    decreases items
  {
    if items != [] {
      NotFewer(n, items[1..]);
    }
  }

  lemma {:induction false} FlatAligned(n: nat, items: seq<nat>)
    requires n > 0
    ensures Over(|Flat(n, items)|, n) == 0
    decreases items
  {
    if items != [] {
      FlatAligned(n, items[1..]);
    }
  }

  /** The bytes before the length of a vector of numbers. */
  function NumbersBody(b: Build, n: nat, items: seq<nat>): Build
    requires n > 0
  {
    Items(Started(b, |Flat(n, items)|, n), n, items)
  }

  lemma NumbersBodyIsSound(b: Build, n: nat, items: seq<nat>)
    requires Soundness(b).Sound? && IsPow2(n) && n > 0 && |NumbersBody(b, n, items).data| < MAX_SIZE
    ensures var t := NumbersBody(b, n, items);
      && Soundness(t).Sound? && (items == [] || n <= t.minalign)
      && t.data == Flat(n, items) + Started(b, |Flat(n, items)|, n).data
      && Over(|t.data|, n) == 0 && Over(|t.data|, 4) == 0
  {
    var d := Started(b, |Flat(n, items)|, n);
    ItemsStart(b, n, items);
    ItemsLie(d, n, items);
    StartedIsSound(b, |Flat(n, items)|, n);
    ItemsAreSound(d, n, items);
  }

  lemma ItemsStart(b: Build, n: nat, items: seq<nat>)
    requires IsPow2(n) && n > 0
    ensures var d := Started(b, |Flat(n, items)|, n).data;
      Over(|d|, n) == 0 && Over(|d| + |Flat(n, items)|, 4) == 0
  {
    var total := |Flat(n, items)|;
    StartedAligned(b, total, n);
    FlatAligned(n, items);
    DifferenceAligned(|Started(b, total, n).data| + total, total, n);
  }

  lemma ItemsAreSound(d: Build, n: nat, items: seq<nat>)
    requires Soundness(d).Sound? && IsPow2(n) && n > 0 && Over(|d.data|, n) == 0
    requires |Items(d, n, items).data| < MAX_SIZE
    ensures Soundness(Items(d, n, items)).Sound?
  {
    ItemsLie(d, n, items);
    Grown(d, Flat(n, items), Items(d, n, items).minalign);
  }

  lemma NumbersAreSound(b: Build, n: nat, items: seq<nat>)
    requires Soundness(b).Sound? && IsPow2(n) && n > 0 && |WithNumbers(b, n, items).data| < MAX_SIZE
    requires forall i | 0 <= i < |items| :: items[i] < Limit(n)
    ensures Soundness(WithNumbers(b, n, items)).Sound?
  {
    SmallPowers();
    var t := NumbersBody(b, n, items);
    NumbersBodyIsSound(b, n, items);
    ElementIsSound(t, LE(4, |items|));
    NoPadding(t, LE(4, |items|));
    NumbersLie(LE(4, |items|), n, items, Started(b, |Flat(n, items)|, n).data);
    StandsAlone(Element(t, LE(4, |items|)), Numbers(n, items));
  }

  // ----- References and vectors of them -------------------------------------------------------

  /** PushElement, of an offset: ReferTo makes it relative to where it is stored. */
  function PushedRef(b: Build, t: nat): Build
    requires t <= |b.data|
  {
    var c := Aligned(b, 4);
    Element(c, LE(4, |c.data| - t + 4))
  }

  lemma PushedRefIsSound(b: Build, t: nat)
    requires Soundness(b).Sound? && 0 < t <= |b.data| && |PushedRef(b, t).data| < MAX_SIZE
    ensures var c := PushedRef(b, t);
      Soundness(c).Sound? && FieldAt(c.data, |c.data|, Ref(t)) && 4 <= c.minalign
  {
    SmallPowers();
    var c := Aligned(b, 4);
    var bytes := LE(4, |c.data| - t + 4);
    AlignedIsSound(b, 4);
    ElementIsSound(c, bytes);
    ElementAligned(c, bytes);
    NoPadding(c, bytes);
  }

  /** In an aligned place an offset needs no padding. */
  lemma RefNoPadding(b: Build, t: nat)
    requires t <= |b.data| && Over(|b.data|, 4) == 0
    ensures PushedRef(b, t) == b.(minalign := Larger(b.minalign, 4), data := LE(4, |b.data| - t + 4) + b.data)
    ensures Over(|PushedRef(b, t).data|, 4) == 0
  {
    assert Zeros(0) + b.data == b.data;
    NoPadding(Aligned(b, 4), LE(4, |b.data| - t + 4));
    assert Over(4, 4) == 0;
    SumAligned(|b.data|, 4, 4);
  }

  predicate Within(ts: seq<nat>, size: nat) {
    forall i | 0 <= i < |ts| :: ts[i] <= size
  }

  function RefItems(b: Build, ts: seq<nat>): (c: Build)
    requires Within(ts, |b.data|)
    ensures |b.data| <= |c.data|
    decreases ts
  {
    if ts == [] then b else PushedRef(RefItems(b, ts[1..]), ts[0])
  }

  lemma {:induction false} RefItemsLie(b: Build, ts: seq<nat>)
    requires Over(|b.data|, 4) == 0 && Within(ts, |b.data|)
    ensures RefItems(b, ts).data == FlatRefs(|b.data| + 4 * |ts|, ts) + b.data
    ensures RefItems(b, ts).minalign == if ts == [] then b.minalign else Larger(b.minalign, 4)
    ensures RefItems(b, ts) == b.(data := RefItems(b, ts).data, minalign := RefItems(b, ts).minalign)
    ensures Over(|RefItems(b, ts).data|, 4) == 0
    decreases ts
  {
    if ts == [] {
      assert FlatRefs(|b.data|, ts) + b.data == b.data;
    } else {
      var rest := RefItems(b, ts[1..]);
      RefItemsLie(b, ts[1..]);
      var at := |b.data| + 4 * |ts|;
      FlatRefsLength(at - 4, ts[1..]);
      assert |rest.data| == at - 4;
      RefNoPadding(rest, ts[0]);
      assert FlatRefs(at, ts) == LE(4, at - ts[0]) + FlatRefs(at - 4, ts[1..]);
      Assoc(LE(4, at - ts[0]), FlatRefs(at - 4, ts[1..]), b.data);
    }
  }

  /** The bytes before the length of a vector of offsets. */
  function RefsBody(b: Build, ts: seq<nat>): Build
    requires Within(ts, |b.data|)
  {
    RefItems(Started(b, 4 * |ts|, 4), ts)
  }

  /** CreateVector, of offsets. */
  function WithRefs(b: Build, ts: seq<nat>): Build
    requires Within(ts, |b.data|)
  {
    var c := Element(RefsBody(b, ts), LE(4, |ts|));
    Made(c, |c.data|, Refs(ts))
  }

  lemma RefsBodyIsSound(b: Build, ts: seq<nat>)
    requires Soundness(b).Sound? && Within(ts, |b.data|)
    requires |RefsBody(b, ts).data| < MAX_SIZE
    ensures var t := RefsBody(b, ts); var d := Started(b, 4 * |ts|, 4).data;
      && Soundness(t).Sound? && t.made == b.made && |b.data| <= |d|
      && t.data == FlatRefs(|d| + 4 * |ts|, ts) + d && Over(|t.data|, 4) == 0
  {
    SmallPowers();
    var total := 4 * |ts|;
    var d := Started(b, total, 4);
    StartedAligned(b, total, 4);
    FlatRefsLength(0, ts);
    FlatRefsAligned(ts);
    DifferenceAligned(|d.data| + total, total, 4);
    RefItemsLie(d, ts);
    StartedIsSound(b, total, 4);
    Grown(d, FlatRefs(|d.data| + 4 * |ts|, ts), RefItems(d, ts).minalign);
  }

  lemma {:induction false} FlatRefsAligned(ts: seq<nat>)
    ensures Over(4 * |ts|, 4) == 0
    decreases ts
  {
    if ts != [] {
      FlatRefsAligned(ts[1..]);
    }
  }

  lemma RefsLie(head: seq<Byte>, ts: seq<nat>, at: nat, body: seq<Byte>, rest: seq<Byte>)
    requires at == |rest| + 4 * |ts| && body == FlatRefs(at, ts)
    requires head == LE(4, |ts|) && forall i | 0 <= i < |ts| :: 0 < ts[i] <= |rest|
    requires |head + (body + rest)| < MAX_SIZE && Over(|body + rest|, 4) == 0
    ensures ObjAt(head + (body + rest), |head + (body + rest)|, Refs(ts)).Sound?
  {
    FlatRefsLength(at, ts);
    SubFront(head, body + rest);
    SubPrepend(head, body + rest, |body + rest|, |body|);
    SubFront(body, rest);
    assert |head + (body + rest)| - 4 == at;
  }

  lemma RefsAreSound(b: Build, ts: seq<nat>)
    requires Soundness(b).Sound? && forall i | 0 <= i < |ts| :: 0 < ts[i] <= |b.data| && ts[i] in b.made
    requires |WithRefs(b, ts).data| < MAX_SIZE
    ensures Soundness(WithRefs(b, ts)).Sound?
  {
    SmallPowers();
    var t := RefsBody(b, ts);
    RefsBodyIsSound(b, ts);
    ElementIsSound(t, LE(4, |ts|));
    NoPadding(t, LE(4, |ts|));
    var d := Started(b, 4 * |ts|, 4).data;
    RefsLie(LE(4, |ts|), ts, |d| + 4 * |ts|, FlatRefs(|d| + 4 * |ts|, ts), d);
    StandsAlone(Element(t, LE(4, |ts|)), Refs(ts));
  }

  // ----- Vectors of structs -------------------------------------------------------------------

  /** CreateVectorOfStructs, of `count` structs that take up `bytes`. */
  function WithStructs(b: Build, align: nat, width: nat, count: nat, bytes: seq<Byte>): Build
    requires align > 0
  {
    var c := Element(Pushed(Started(b, |bytes|, align), bytes), LE(4, count));
    Made(c, |c.data|, Structs(align, width, count, bytes))
  }

  lemma StructsLie(head: seq<Byte>, align: nat, width: nat, count: nat, bytes: seq<Byte>, rest: seq<Byte>)
    requires 0 < align && head == LE(4, count) && count < MAX_SIZE && |head + (bytes + rest)| < MAX_SIZE
    requires Over(|bytes + rest|, 4) == 0 && Over(|bytes + rest|, align) == 0
    requires |bytes| == width * count && Over(width, align) == 0
    ensures ObjAt(head + (bytes + rest), |head + (bytes + rest)|, Structs(align, width, count, bytes)).Sound?
  {
    SubFront(head, bytes + rest);
    SubPrepend(head, bytes + rest, |bytes + rest|, |bytes|);
    SubFront(bytes, rest);
  }

  lemma StructsAreSound(b: Build, align: nat, width: nat, count: nat, bytes: seq<Byte>)
    requires Soundness(b).Sound? && IsPow2(align) && align > 0 && count < MAX_SIZE
    requires |bytes| == width * count && Over(width, align) == 0
    requires |WithStructs(b, align, width, count, bytes).data| < MAX_SIZE
    ensures Soundness(WithStructs(b, align, width, count, bytes)).Sound?
  {
    SmallPowers();
    var d := Started(b, |bytes|, align);
    StartedAligned(b, |bytes|, align);
    StartedIsSound(b, |bytes|, align);
    PushedIsSound(d, bytes);
    ElementIsSound(Pushed(d, bytes), LE(4, count));
    NoPadding(Pushed(d, bytes), LE(4, count));
    StructsLie(LE(4, count), align, width, count, bytes, d.data);
    StandsAlone(Element(Pushed(d, bytes), LE(4, count)), Structs(align, width, count, bytes));
  }
}
