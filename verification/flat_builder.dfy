/** FlatBufferBuilder of msgpack_flatbuffer_compare/fb/flatbuffers.h, up to the objects of a buffer. */
module FlatBuilder {
  import opened Sequences
  import opened PowersOfTwo
  import opened FlatBytes
  import opened FlatVector
  import opened FlatObjects
  import opened FlatBuild
  import opened FlatTables
  import opened Verdicts

  lemma SizesAreWords()
    ensures MAX_SIZE + MAX_SIZE <= Pow2(WORD_BITS)
  {
    assert Pow2(8) == 0x100 && Pow2(16) == 0x1_0000;
    assert Pow2(24) == 0x100_0000 && Pow2(32) == 0x1_0000_0000;
    Pow2Monotone(32, WORD_BITS);
  }

  /** PaddingBytes */
  method Padding(size: nat, align: nat) returns (p: nat)
    requires size < MAX_SIZE + MAX_SIZE && IsPow2(align) && 0 < align < MAX_SIZE
    ensures p == Pad(size, align)
  {
    SizesAreWords();
    p := PaddingBytes(size, align, WORD_BITS);
    PaddingBytesIsPad(size, align, WORD_BITS, p);
  }

  class FlatBufferBuilder {
    const buf: VectorDownward
    var offsetbuf: seq<FieldLoc>
    var vtables: seq<nat>
    var minalign: nat
    var forceDefaults: bool
    ghost var fields: map<nat, Placed>
    ghost var made: map<nat, Obj>

    ghost function State(): Build
      requires buf.Valid()
      reads this, buf, buf.buf
    {
      Build(buf.Contents(), minalign, vtables, offsetbuf, fields, made)
    }

    ghost predicate Valid()
      reads this, buf, buf.buf
    {
      buf.Valid() && Soundness(State()).Sound?
    }

    constructor (initialSize: nat)
      requires initialSize % LARGEST_ALIGN == 0
      ensures Valid() && State() == Fresh() && !forceDefaults
      ensures fresh(buf) && fresh(buf.buf)
    {
      buf := new VectorDownward(initialSize);
      offsetbuf, vtables, minalign, forceDefaults := [], [], 1, false;
      fields, made := map[], map[];
      new;
      FreshIsSound();
    }

    method Clear()
      requires Valid()
      modifies this, buf
      ensures Valid() && State() == Fresh() && buf.buf == old(buf.buf) && forceDefaults == old(forceDefaults)
    {
      buf.Clear();
      offsetbuf, vtables, minalign := [], [], 1;
      fields, made := map[], map[];
      FreshIsSound();
    }

    method ForceDefaults(fd: bool)
      requires Valid()
      modifies this`forceDefaults
      ensures Valid() && forceDefaults == fd
    {
      forceDefaults := fd;
    }

    method Align(elemSize: nat)
      requires buf.Valid() && IsPow2(elemSize) && 0 < elemSize < MAX_SIZE
      requires |Aligned(State(), elemSize).data| < MAX_SIZE
      modifies this`minalign, buf, buf.buf
      ensures buf.Valid() && (buf.buf == old(buf.buf) || fresh(buf.buf))
      ensures State() == Aligned(old(State()), elemSize)
    {
      if elemSize > minalign {
        minalign := elemSize;
      }
      var p := Padding(buf.Size(), elemSize);
      buf.Fill(p);
    }

    method PreAlign(len: nat, alignment: nat)
      requires buf.Valid() && IsPow2(alignment) && 0 < alignment < MAX_SIZE && len < MAX_SIZE
      requires |PreAligned(State(), len, alignment).data| < MAX_SIZE
      modifies buf, buf.buf
      ensures buf.Valid() && (buf.buf == old(buf.buf) || fresh(buf.buf))
      ensures State() == PreAligned(old(State()), len, alignment)
    {
      var p := Padding(buf.Size() + len, alignment);
      buf.Fill(p);
    }

    method PushElement(bytes: seq<Byte>)
      requires buf.Valid() && bytes != [] && IsPow2(|bytes|) && |Element(State(), bytes).data| < MAX_SIZE
      modifies this`minalign, buf, buf.buf
      ensures buf.Valid() && (buf.buf == old(buf.buf) || fresh(buf.buf))
      ensures State() == Element(old(State()), bytes)
    {
      Align(|bytes|);
      buf.Push(bytes);
    }

    /** Makes an offset relative to where the next element goes. */
    method ReferTo(off: nat) returns (r: nat)
      requires buf.Valid() && off <= |buf.Contents()| && |Aligned(State(), 4).data| < MAX_SIZE
      modifies this`minalign, buf, buf.buf
      ensures buf.Valid() && (buf.buf == old(buf.buf) || fresh(buf.buf))
      ensures State() == Aligned(old(State()), 4) && r == |State().data| - off + 4
    {
      SmallPowers();
      Align(4);
      r := buf.Size() - off + 4;
    }

    /** PushElement, of an offset. */
    method PushRef(off: nat)
      requires buf.Valid() && off <= |buf.Contents()| && |PushedRef(State(), off).data| < MAX_SIZE
      modifies this`minalign, buf, buf.buf
      ensures buf.Valid() && (buf.buf == old(buf.buf) || fresh(buf.buf))
      ensures State() == PushedRef(old(State()), off)
    {
      SmallPowers();
      var r := ReferTo(off);
      PushElement(LE(4, r));
    }

    /** EndVector, after which the object is made. */
    method EndVector(len: nat, ghost obj: Obj) returns (o: nat)
      requires buf.Valid() && |Element(State(), LE(4, len)).data| < MAX_SIZE
      modifies this`minalign, this`made, buf, buf.buf
      ensures buf.Valid() && (buf.buf == old(buf.buf) || fresh(buf.buf))
      ensures o == |State().data| && State() == Made(Element(old(State()), LE(4, len)), o, obj)
    {
      SmallPowers();
      PushElement(LE(4, len));
      o := buf.Size();
      made := made[o := obj];
    }

    // ----- Strings and vectors ----------------------------------------------------------------

    method CreateString(s: seq<Byte>) returns (o: nat)
      requires Valid() && offsetbuf == [] && |WithText(State(), s).data| < MAX_SIZE
      modifies this, buf, buf.buf
      ensures Valid() && (buf.buf == old(buf.buf) || fresh(buf.buf))
      ensures State() == WithText(old(State()), s) && o == |State().data|
      ensures forceDefaults == old(forceDefaults)
    {
      TextIsSound(State(), s);
      SmallPowers();
      PreAlign(|s| + 1, 4);
      buf.Fill(1);
      buf.Push(s);
      o := EndVector(|s|, Text(s));
    }

    method StartVector(len: nat, elemSize: nat)
      requires buf.Valid() && IsPow2(elemSize) && 0 < elemSize < MAX_SIZE && len * elemSize < MAX_SIZE
      requires |Started(State(), len * elemSize, elemSize).data| < MAX_SIZE
      modifies buf, buf.buf
      ensures buf.Valid() && (buf.buf == old(buf.buf) || fresh(buf.buf))
      ensures State() == Started(old(State()), len * elemSize, elemSize)
    {
      SmallPowers();
      PreAlign(len * elemSize, 4);
      PreAlign(len * elemSize, elemSize);
    }

    /** The elements of a vector, the last one first. */
    method PushItems(n: nat, items: seq<nat>)
      requires buf.Valid() && IsPow2(n) && n > 0 && |Items(State(), n, items).data| < MAX_SIZE
      modifies this`minalign, buf, buf.buf
      ensures buf.Valid() && (buf.buf == old(buf.buf) || fresh(buf.buf))
      ensures State() == Items(old(State()), n, items)
    {
      ghost var start := State();
      var i := |items|;
      assert items[i..] == [];
      while i > 0
        invariant 0 <= i <= |items| && buf.Valid() && (buf.buf == old(buf.buf) || fresh(buf.buf))
        invariant State() == Items(start, n, items[i..])
      {
        i := i - 1;
        ItemsGrow(start, n, items, i);
        PushElement(LE(n, items[i]));
      }
      assert items[0..] == items;
    }

    /** CreateVector, of numbers of n bytes. */
    method CreateVector(n: nat, items: seq<nat>) returns (o: nat)
      requires Valid() && offsetbuf == [] && IsPow2(n) && 0 < n < MAX_SIZE
      requires forall i | 0 <= i < |items| :: items[i] < Limit(n)
      requires |WithNumbers(State(), n, items).data| < MAX_SIZE
      modifies this, buf, buf.buf
      ensures Valid() && (buf.buf == old(buf.buf) || fresh(buf.buf))
      ensures State() == WithNumbers(old(State()), n, items) && o == |State().data|
      ensures forceDefaults == old(forceDefaults)
    {
      NumbersAreSound(State(), n, items);
      SmallPowers();
      ItemsSize(Started(State(), |Flat(n, items)|, n), n, items);
      StartVector(|items|, n);
      PushItems(n, items);
      o := EndVector(|items|, Numbers(n, items));
    }

    /** The elements of a vector of offsets, the last one first. */
    method PushRefs(ts: seq<nat>)
      requires buf.Valid() && Within(ts, |buf.Contents()|)
      requires |RefItems(State(), ts).data| < MAX_SIZE
      modifies this`minalign, buf, buf.buf
      ensures buf.Valid() && (buf.buf == old(buf.buf) || fresh(buf.buf))
      ensures State() == RefItems(old(State()), ts)
    {
      ghost var start := State();
      var i := |ts|;
      assert ts[i..] == [];
      while i > 0
        invariant 0 <= i <= |ts| && buf.Valid() && (buf.buf == old(buf.buf) || fresh(buf.buf))
        invariant State() == RefItems(start, ts[i..])
      {
        i := i - 1;
        RefItemsGrow(start, ts, i);
        PushRef(ts[i]);
      }
      assert ts[0..] == ts;
    }

    method PushRefsBody(ts: seq<nat>)
      requires buf.Valid() && Within(ts, |buf.Contents()|) && |RefsBody(State(), ts).data| < MAX_SIZE
      modifies this`minalign, buf, buf.buf
      ensures buf.Valid() && (buf.buf == old(buf.buf) || fresh(buf.buf))
      ensures State() == RefsBody(old(State()), ts)
    {
      SmallPowers();
      ghost var start := Started(State(), 4 * |ts|, 4);
      RefsSize(start, ts);
      StartVector(|ts|, 4);
      assert State() == start;
      PushRefs(ts);
    }

    /** CreateVector, of offsets. */
    method CreateVectorOfOffsets(ts: seq<nat>) returns (o: nat)
      requires Valid() && offsetbuf == []
      requires Within(ts, |buf.Contents()|) && forall i | 0 <= i < |ts| :: 0 < ts[i] && ts[i] in made
      requires |WithRefs(State(), ts).data| < MAX_SIZE
      modifies this, buf, buf.buf
      ensures Valid() && (buf.buf == old(buf.buf) || fresh(buf.buf))
      ensures State() == WithRefs(old(State()), ts) && o == |State().data|
      ensures forceDefaults == old(forceDefaults)
    {
      RefsAreSound(State(), ts);
      PushRefsBody(ts);
      o := EndVector(|ts|, Refs(ts));
    }

    /** CreateVectorOfStructs, of `count` structs of `width` bytes. */
    method CreateVectorOfStructs(align: nat, width: nat, count: nat, bytes: seq<Byte>) returns (o: nat)
      requires Valid() && offsetbuf == [] && IsPow2(align) && 0 < align < MAX_SIZE
      requires width > 0 && width % align == 0 && |bytes| == width * count
      requires |WithStructs(State(), align, width, count, bytes).data| < MAX_SIZE
      modifies this, buf, buf.buf
      ensures Valid() && (buf.buf == old(buf.buf) || fresh(buf.buf))
      ensures State() == WithStructs(old(State()), align, width, count, bytes) && o == |State().data|
      ensures forceDefaults == old(forceDefaults)
    {
      StructsSize(align, width, count);
      OverIsMod(width, align);
      StructsAreSound(State(), align, width, count, bytes);
      SmallPowers();
      StartVector(count * width / align, align);
      buf.Push(bytes);
      o := EndVector(count, Structs(align, width, count, bytes));
    }

    // ----- Tables -----------------------------------------------------------------------------

    method StartTable() returns (start: nat)
      requires Valid() && offsetbuf == []
      ensures start == |State().data|
    {
      start := buf.Size();
    }

    method TrackField(id: nat, ghost f: Field)
      requires buf.Valid()
      modifies this`offsetbuf, this`fields
      ensures State() == Tracked(old(State()), id, f)
    {
      offsetbuf := offsetbuf + [FieldLoc(buf.Size(), id)];
      fields := fields[id := Placed(buf.Size(), f)];
    }

    /** AddElement, of the bits e of a number of n bytes. */
    method AddElement(id: nat, n: nat, e: nat, default: nat)
      requires Valid() && NewField(State(), id) && IsPow2(n) && n > 0 && e < Limit(n)
      requires |AddedNumber(State(), forceDefaults, id, n, e, default).data| < MAX_SIZE
      modifies this, buf, buf.buf
      ensures Valid() && (buf.buf == old(buf.buf) || fresh(buf.buf))
      ensures State() == AddedNumber(old(State()), forceDefaults, id, n, e, default)
      ensures forceDefaults == old(forceDefaults)
    {
      NumberIsSound(State(), forceDefaults, id, n, e, default);
      if e == default && !forceDefaults {
        return;
      }
      PushElement(LE(n, e));
      TrackField(id, Number(n, e));
    }

    /** AddOffset */
    method AddOffset(id: nat, t: nat)
      requires Valid() && NewField(State(), id) && t <= |buf.Contents()| && (t == 0 || t in made)
      requires |AddedRef(State(), id, t).data| < MAX_SIZE
      modifies this, buf, buf.buf
      ensures Valid() && (buf.buf == old(buf.buf) || fresh(buf.buf))
      ensures State() == AddedRef(old(State()), id, t)
      ensures forceDefaults == old(forceDefaults)
    {
      RefIsSound(State(), id, t);
      if t == 0 {
        return;
      }
      PushRef(t);
      TrackField(id, Ref(t));
    }

    /** AddStruct */
    method AddStruct(id: nat, align: nat, bytes: seq<Byte>)
      requires Valid() && NewField(State(), id)
      requires IsPow2(align) && align > 0 && bytes != [] && Over(|bytes|, align) == 0
      requires |AddedStruct(State(), id, align, bytes).data| < MAX_SIZE
      modifies this, buf, buf.buf
      ensures Valid() && (buf.buf == old(buf.buf) || fresh(buf.buf))
      ensures State() == AddedStruct(old(State()), id, align, bytes)
      ensures forceDefaults == old(forceDefaults)
    {
      StructIsSound(State(), id, align, bytes);
      Align(align);
      buf.Push(bytes);
      TrackField(id, Struct(align, bytes));
    }

    static function FieldIndexToOffset(fieldId: nat): nat {
      (fieldId + 2) * 2
    }

    /** Room for the offset to the vtable, and a vtable without fields. */
    method PushVTable(start: nat, slots: nat) returns (loc: nat)
      requires buf.Valid() && start <= TableStart(State()) && TableStart(State()) + 2 * slots + 4 < MAX_SIZE
      modifies this`minalign, buf, buf.buf
      ensures buf.Valid() && (buf.buf == old(buf.buf) || fresh(buf.buf))
      ensures loc == TableStart(old(State()))
      ensures State() == Pushed(Element(old(State()), LE(4, 0)), VTable(loc, loc - start, slots, map[]))
    {
      SmallPowers();
      PushElement(LE(4, 0));
      loc := buf.Size();
      PushEmptyVTable(loc - start, slots);
    }

    method PushEmptyVTable(length: nat, slots: nat)
      requires buf.Valid() && Over(|State().data|, 4) == 0 && 4 <= minalign
      requires |State().data| + 2 * slots + 4 < MAX_SIZE
      modifies this`minalign, buf, buf.buf
      ensures buf.Valid() && (buf.buf == old(buf.buf) || fresh(buf.buf))
      ensures State() == Pushed(old(State()), VTable(|old(State()).data|, length, slots, map[]))
    {
      SmallPowers();
      ghost var e := State();
      VTablePushed(e, length, slots);
      buf.Fill(slots * 2);
      assert State() == Pushed(e, Zeros(slots * 2));
      PushElement(LE(2, length));
      assert State() == Element(Pushed(e, Zeros(slots * 2)), LE(2, length));
      PushElement(LE(2, FieldIndexToOffset(slots)));
    }

    /** Writes where field i of the list is, into a vtable with those before it. */
    method WriteSlot(i: nat, loc: nat, ghost length: nat, ghost slots: nat, ghost rest: seq<Byte>)
      requires buf.Valid() && LocsOf(fields, offsetbuf).Sound? && i < |offsetbuf|
      requires forall id :: id in fields ==> 4 <= id < 2 * slots + 4 && id % 2 == 0 && fields[id].at <= loc
      requires buf.Contents() == VTable(loc, length, slots, Restrict(fields, offsetbuf[..i])) + rest
      modifies buf.buf
      ensures buf.Valid()
      ensures buf.Contents() == VTable(loc, length, slots, Restrict(fields, offsetbuf[..i + 1])) + rest
    {
      var id := offsetbuf[i].id;
      SlotAdded(fields, offsetbuf, i, loc, length, slots, rest);
      var slot := buf.ReadAt(id, 2);
      assert Val(slot) == 0;
      buf.WriteAt(id, LE(2, loc - offsetbuf[i].off));
    }

    /** Writes where the fields are into a vtable without fields. */
    method WriteSlots(loc: nat, ghost length: nat, ghost slots: nat, ghost rest: seq<Byte>)
      requires buf.Valid() && LocsOf(fields, offsetbuf).Sound?
      requires forall id :: id in fields ==> 4 <= id < 2 * slots + 4 && id % 2 == 0 && fields[id].at <= loc
      requires buf.Contents() == VTable(loc, length, slots, map[]) + rest
      modifies this`offsetbuf, buf.buf
      ensures buf.Valid() && buf.Contents() == VTable(loc, length, slots, fields) + rest
      ensures offsetbuf == []
    {
      LocsFacts(fields, offsetbuf);
      var i: nat := 0;
      assert Restrict(fields, offsetbuf[..0]) == map[];
      while i < |offsetbuf|
        invariant i <= |offsetbuf|
        invariant buf.Contents() == VTable(loc, length, slots, Restrict(fields, offsetbuf[..i])) + rest
        modifies buf.buf
      {
        WriteSlot(i, loc, length, slots, rest);
        i := i + 1;
      }
      assert offsetbuf[..i] == offsetbuf;
      offsetbuf := [];
    }

    /** Whether the vtable at `off` has the bytes of the one at the front. */
    method SameBytes(
        off: nat, vt1Size: nat, ghost data: seq<Byte>, ghost vt: seq<Byte>, ghost rest: seq<Byte>)
      returns (same: bool)
      requires buf.Valid() && buf.Contents() == vt + rest && vt1Size == |vt| && SameReads(data, off, vt, rest).Sound?
      ensures same == Same(data, off, vt)
    {
      SameReadsFacts(data, off, vt, rest);
      var vt2 := buf.ReadAt(buf.Size() - off, 2);
      same := false;
      if vt1Size == Val(vt2) {
        var ours := buf.ReadAt(0, vt1Size);
        var theirs := buf.ReadAt(buf.Size() - off, vt1Size);
        assert ours == vt;
        same := ours == theirs;
      }
    }

    /** Looks for a vtable with the same bytes; if there is one, at v, it is used and the new one removed. */
    method ShareVTable(
        loc: nat, ghost data: seq<Byte>, ghost vt: seq<Byte>, ghost rest: seq<Byte>, ghost v: nat)
      returns (use: nat)
      requires buf.Valid() && Shareables(data, vtables).Sound? && |vt| >= 2 && Val(vt[..2]) == |vt|
      requires Ends(rest, data).Sound? && buf.Contents() == vt + rest && |data| < |rest| == loc
      requires v == Shareable(data, vtables, vt)
      modifies this`vtables, buf`cur
      ensures buf.Valid() && use == (if v != 0 then v else loc + |vt|)
      ensures vtables == (if v != 0 then old(vtables) else old(vtables) + [use])
      ensures buf.Contents() == (if v != 0 then rest else vt + rest)
    {
      var vt1 := buf.ReadAt(0, 2);
      assert vt1 == vt[..2];
      var vt1Size := Val(vt1);
      use := buf.Size();
      var k: nat := 0;
      while k < |vtables|
        invariant k <= |vtables| && vtables == old(vtables)
        invariant buf.Valid() && buf.Contents() == vt + rest && use == loc + |vt|
        invariant v == Shareable(data, vtables[k..], vt)
      {
        var off := vtables[k];
        SharedFacts(data, vtables, k, vt, rest);
        var same := SameBytes(off, vt1Size, data, vt, rest);
        if same {
          use := off;
          buf.Pop(buf.Size() - loc);
          break;
        }
        k := k + 1;
      }
      if use == buf.Size() {
        vtables := vtables + [use];
      }
    }

    /** Room for the offset to the vtable, and the vtable. */
    method WriteVTable(start: nat, slots: nat) returns (loc: nat)
      requires Valid() && CanEnd(State(), start, slots) && TableStart(State()) + 2 * slots + 4 < MAX_SIZE
      modifies this`minalign, this`offsetbuf, buf, buf.buf
      ensures buf.Valid() && (buf.buf == old(buf.buf) || fresh(buf.buf))
      ensures loc == TableStart(old(State())) && offsetbuf == [] && minalign == Larger(old(minalign), 4)
      ensures buf.Contents() == NewVTable(old(State()), start, slots) + Element(old(State()), LE(4, 0)).data
    {
      ghost var b := State();
      TableParts(b);
      loc := PushVTable(start, slots);
      WriteSlots(loc, loc - start, slots, Element(b, LE(4, 0)).data);
    }

    /** Fills in the offset of the vtable. */
    method PutOffset(loc: nat, use: nat, ghost b: Build, ghost vt: seq<Byte>, ghost isNew: bool)
      requires buf.Valid() && loc == TableStart(b)
      requires buf.Contents() == if isNew then vt + Element(b, LE(4, 0)).data else Element(b, LE(4, 0)).data
      modifies buf.buf
      ensures buf.Valid() && buf.Contents() == TableBytes(b, use, vt, isNew).data
    {
      OffsetWritten(b, loc, use, vt, isNew, buf.Contents());
      var far: int := use;
      buf.WriteAt(buf.Size() - loc, LE(4, Signed32(far - loc)));
    }

    /** The bytes that EndTable writes; v is where the same vtable is already, or 0. */
    method WriteTable(start: nat, slots: nat, ghost vt: seq<Byte>, ghost v: nat) returns (loc: nat, ghost use: nat)
      requires Valid() && CanEnd(State(), start, slots) && TableStart(State()) + 2 * slots + 4 < MAX_SIZE
      requires vt == NewVTable(State(), start, slots) && v == Shareable(State().data, vtables, vt)
      modifies this`minalign, this`offsetbuf, this`vtables, buf, buf.buf
      ensures buf.Valid() && (buf.buf == old(buf.buf) || fresh(buf.buf))
      ensures loc == TableStart(old(State())) && offsetbuf == [] && minalign == Larger(old(minalign), 4)
      ensures use == UsedVTable(old(State()), vt)
      ensures vtables == if v == 0 then old(vtables) + [use] else old(vtables)
      ensures buf.Contents() == TableBytes(old(State()), use, vt, v == 0).data
    {
      ghost var b := State();
      ghost var rest := Element(b, LE(4, 0)).data;
      CanShare(b, start, slots, vt, rest);
      loc := WriteVTable(start, slots);
      var vtUse := ShareVTable(loc, b.data, vt, rest, v);
      use := vtUse;
      PutOffset(loc, vtUse, b, vt, v == 0);
    }

    /** EndTable */
    method EndTable(start: nat, slots: nat) returns (loc: nat)
      requires Valid() && CanEnd(State(), start, slots) && TableStart(State()) + 2 * slots + 4 < MAX_SIZE
      modifies this, buf, buf.buf
      ensures Valid() && (buf.buf == old(buf.buf) || fresh(buf.buf))
      ensures State() == WithTable(old(State()), start, slots) && loc == TableStart(old(State()))
      ensures forceDefaults == old(forceDefaults)
    {
      ghost var b := State();
      TableIsSound(b, start, slots);
      ghost var vt := NewVTable(b, start, slots);
      ghost var use;
      loc, use := WriteTable(start, slots, vt, Shareable(b.data, vtables, vt));
      made := made[loc := Table(use, loc - start, slots, fields)];
      fields := map[];
      TableAssembled(b, start, slots, vt);
    }

    /** Finish */
    method Finish(root: nat, identifier: seq<Byte>)
      requires Valid() && root in made && root <= |buf.Contents()|
      requires |identifier| == 0 || |identifier| == 4
      requires minalign > 0 && |Finished(State(), root, identifier).data| < MAX_SIZE
      modifies this, buf, buf.buf
      ensures Valid() && (buf.buf == old(buf.buf) || fresh(buf.buf))
      ensures State() == Finished(old(State()), root, identifier)
      ensures forceDefaults == old(forceDefaults)
    {
      FinishedIsSound(State(), root, identifier);
      Size(State());
      PreAlign(4 + |identifier|, minalign);
      buf.Push(identifier);
      PushRef(root);
    }
  }

  /** The vtables that have been made. */
  ghost function Shareables(data: seq<Byte>, vtables: seq<nat>): Verdict {
    if forall i {:trigger vtables[i]} :: 0 <= i < |vtables| ==> Shared(data, vtables[i]) then Sound else Broken
  }

  ghost function Ends(rest: seq<Byte>, data: seq<Byte>): Verdict {
    if |data| <= |rest| && rest[|rest| - |data|..] == data then Sound else Broken
  }

  lemma RestEnds(b: Build, rest: seq<Byte>)
    requires rest == Element(b, LE(4, 0)).data
    ensures Ends(rest, b.data).Sound? && |b.data| + 4 <= |rest| == TableStart(b)
  {
  }

  /** What comparing with an older vtable reads. */
  ghost function SameReads(data: seq<Byte>, v: nat, vt: seq<Byte>, rest: seq<Byte>): Verdict {
    var all := vt + rest;
    if && 4 <= v <= |data| <= |rest| && Val(Sub(data, v, 2)) <= v && Sub(data, v, 2) == all[|all| - v..|all| - v + 2]
       && (Val(Sub(data, v, 2)) == |vt| ==> Sub(data, v, |vt|) == all[|all| - v..|all| - v + |vt|])
    then Sound else Broken
  }

  lemma SameReadsFacts(data: seq<Byte>, v: nat, vt: seq<Byte>, rest: seq<Byte>)
    requires SameReads(data, v, vt, rest).Sound?
    ensures var all := vt + rest;
      && 4 <= v <= |data| <= |rest| && Val(Sub(data, v, 2)) <= v && Sub(data, v, 2) == all[|all| - v..|all| - v + 2]
      && (Val(Sub(data, v, 2)) == |vt| ==> Sub(data, v, |vt|) == all[|all| - v..|all| - v + |vt|])
  {
  }

  lemma SharedFacts(data: seq<Byte>, vtables: seq<nat>, k: nat, vt: seq<Byte>, rest: seq<Byte>)
    requires Shareables(data, vtables).Sound? && k < |vtables| && Ends(rest, data).Sound?
    ensures SameReads(data, vtables[k], vt, rest).Sound? && vtables[k] != 0
    ensures Shareable(data, vtables[k..], vt)
      == (if Same(data, vtables[k], vt) then vtables[k] else Shareable(data, vtables[k + 1..], vt))
  {
    var v := vtables[k];
    assert vtables[k..][1..] == vtables[k + 1..];
    assert Shared(data, v);
    var front := rest[..|rest| - |data|];
    assert rest == front + data;
    SubPrepend(front, data, v, 2);
    SubPrepend(vt, rest, v, 2);
    if Val(Sub(data, v, 2)) == |vt| {
      SubPrepend(front, data, v, |vt|);
      SubPrepend(vt, rest, v, |vt|);
    }
  }

  lemma TableParts(b: Build)
    requires Soundness(b).Sound?
    ensures LocsOf(b.fields, b.locs).Sound? && Shareables(b.data, b.vtables).Sound?
    ensures forall id :: id in b.fields ==> 4 <= id && id % 2 == 0 && b.fields[id].at <= |b.data|
  {
    Clauses(b);
    forall i | 0 <= i < |b.locs| ensures LocIn(b.fields, b.locs, i) {
      assert LocOf(b, i);
    }
    forall id | id in b.fields ensures HasLoc(b.locs, id) && 4 <= id && id % 2 == 0 && b.fields[id].at <= |b.data| {
      assert Pending(b, id);
    }
  }

  lemma CanShare(b: Build, start: nat, slots: nat, vt: seq<Byte>, rest: seq<Byte>)
    requires Soundness(b).Sound? && CanEnd(b, start, slots) && vt == NewVTable(b, start, slots)
    requires rest == Element(b, LE(4, 0)).data
    ensures Shareables(b.data, b.vtables).Sound? && Ends(rest, b.data).Sound?
    ensures |vt| == 2 * slots + 4 && Val(vt[..2]) == |vt| && |b.data| + 4 <= |rest| == TableStart(b)
  {
    TableParts(b);
    RestEnds(b, rest);
    VTableSize(TableStart(b), TableStart(b) - start, slots, b.fields, vt);
  }

  lemma TableAssembled(b: Build, start: nat, slots: nat, vt: seq<Byte>)
    requires start <= TableStart(b) && vt == NewVTable(b, start, slots)
    ensures var use := UsedVTable(b, vt); var isNew := Shareable(b.data, b.vtables, vt) == 0;
      WithTable(b, start, slots)
        == Build(
             TableBytes(b, use, vt, isNew).data, Larger(b.minalign, 4),
             if isNew then b.vtables + [use] else b.vtables, [], map[],
             b.made[TableStart(b) := Table(use, TableStart(b) - start, slots, b.fields)])
  {
  }

  /** Filling in the offset of the vtable. */
  lemma OffsetWritten(b: Build, loc: nat, use: nat, vt: seq<Byte>, isNew: bool, before: seq<Byte>)
    requires loc == TableStart(b)
    requires before == if isNew then vt + Element(b, LE(4, 0)).data else Element(b, LE(4, 0)).data
    ensures |before| >= loc
    ensures Overwrite(before, |before| - loc, LE(4, Signed32(use as int - loc))) == TableBytes(b, use, vt, isNew).data
  {
    var bytes := LE(4, Signed32(use as int - loc));
    var tail := Aligned(b, 4).data;
    assert before[|before| - loc + 4..] == tail;
    if isNew {
      assert before[..|before| - loc] == vt;
      Assoc(vt, bytes, tail);
    } else {
      assert before[..|before| - loc] == [];
    }
  }

  lemma SlotsAligned(loc: nat, slots: nat)
    requires Over(loc, 4) == 0
    ensures Over(2 * slots + loc, 2) == 0 && Over(2 + (2 * slots + loc), 2) == 0
  {
    assert Over(4, 2) == 0;
    AlignedDown(loc, 4, 2);
    OverIsMod(loc, 2);
    OverIsMod(2 * slots + loc, 2);
    OverIsMod(2 + (2 * slots + loc), 2);
  }

  lemma VTablePushed(e: Build, length: nat, slots: nat)
    requires Over(|e.data|, 4) == 0 && 4 <= e.minalign
    ensures Element(Element(Pushed(e, Zeros(slots * 2)), LE(2, length)), LE(2, 2 * slots + 4))
      == Pushed(e, VTable(|e.data|, length, slots, map[]))
  {
    var c := Pushed(e, Zeros(slots * 2));
    SlotsAligned(|e.data|, slots);
    NoPadding(c, LE(2, length));
    NoPadding(Element(c, LE(2, length)), LE(2, 2 * slots + 4));
    EmptyVTable(|e.data|, length, slots, e.data);
  }

  lemma EmptyVTable(at: nat, length: nat, slots: nat, rest: seq<Byte>)
    ensures LE(2, 2 * slots + 4) + (LE(2, length) + (Zeros(slots * 2) + rest))
      == VTable(at, length, slots, map[]) + rest
  {
    var v := VTable(at, length, slots, map[]);
    var w := LE(2, 2 * slots + 4) + LE(2, length) + Zeros(slots * 2);
    forall j | 0 <= j < |v| ensures v[j] == w[j] {
      if j >= 4 {
        assert Digit(0, 0) == 0 && Digit(0, 1) == 0;
        assert j % 2 == 0 || j % 2 == 1;
      }
    }
    assert v == w;
  }

  /** The fields that have been written down in some places. */
  ghost function Restrict(fields: map<nat, Placed>, locs: seq<FieldLoc>): map<nat, Placed> {
    map id | id in fields && HasLoc(locs, id) :: fields[id]
  }

  predicate LocIn(fields: map<nat, Placed>, locs: seq<FieldLoc>, i: nat) {
    i < |locs| && locs[i].id in fields && fields[locs[i].id].at == locs[i].off
  }

  /** offsetbuf_ says, once for each, where the fields are. */
  ghost function LocsOf(fields: map<nat, Placed>, locs: seq<FieldLoc>): Verdict {
    if && (forall i {:trigger LocIn(fields, locs, i)} :: 0 <= i < |locs| ==> LocIn(fields, locs, i))
       && (forall id {:trigger HasLoc(locs, id)} :: id in fields ==> HasLoc(locs, id))
       && (forall i, j :: 0 <= i < j < |locs| ==> locs[i].id != locs[j].id)
    then Sound else Broken
  }

  lemma LocsFacts(fields: map<nat, Placed>, locs: seq<FieldLoc>)
    requires LocsOf(fields, locs).Sound?
    ensures forall i | 0 <= i < |locs| :: LocIn(fields, locs, i)
    ensures Restrict(fields, locs) == fields
  {
  }

  lemma RestrictMore(fields: map<nat, Placed>, locs: seq<FieldLoc>, i: nat)
    requires LocsOf(fields, locs).Sound? && i < |locs|
    ensures LocIn(fields, locs, i) && locs[i].id !in Restrict(fields, locs[..i])
    ensures Restrict(fields, locs[..i + 1]) == Restrict(fields, locs[..i])[locs[i].id := fields[locs[i].id]]
  {
    assert LocIn(fields, locs, i);
    forall id | id in fields
      ensures HasLoc(locs[..i + 1], id) <==> HasLoc(locs[..i], id) || id == locs[i].id
    {
      if HasLoc(locs[..i], id) {
        var k :| 0 <= k < i && locs[..i][k].id == id;
        assert locs[..i + 1][k].id == id;
      }
      if id == locs[i].id {
        assert locs[..i + 1][i].id == id;
      }
      if HasLoc(locs[..i + 1], id) && id != locs[i].id {
        var k :| 0 <= k < i + 1 && locs[..i + 1][k].id == id;
        assert locs[..i][k].id == id;
      }
    }
    forall k | 0 <= k < i ensures locs[..i][k].id != locs[i].id {
      assert locs[..i][k] == locs[k];
    }
  }

  /** Writing a slot that is still empty. */
  /** Writing slot i of the list adds its field. */
  lemma SlotAdded(
      fields: map<nat, Placed>, locs: seq<FieldLoc>, i: nat, loc: nat, length: nat, slots: nat, rest: seq<Byte>)
    requires LocsOf(fields, locs).Sound? && i < |locs|
    requires forall id :: id in fields ==> 4 <= id < 2 * slots + 4 && id % 2 == 0 && fields[id].at <= loc
    ensures var l := locs[i]; var v := VTable(loc, length, slots, Restrict(fields, locs[..i])) + rest;
      && l.off <= loc && l.id + 2 <= |v| && Val(v[l.id..l.id + 2]) == 0
      && Overwrite(v, l.id, LE(2, loc - l.off))
        == VTable(loc, length, slots, Restrict(fields, locs[..i + 1])) + rest
  {
    var id := locs[i].id;
    RestrictMore(fields, locs, i);
    SlotWritten(loc, length, slots, Restrict(fields, locs[..i]), id, fields[id], rest);
  }

  lemma SlotWritten(at: nat, length: nat, slots: nat, fields: map<nat, Placed>, id: nat, p: Placed, rest: seq<Byte>)
    requires 4 <= id < 2 * slots + 4 && id % 2 == 0 && id !in fields && p.at <= at
    ensures var v := VTable(at, length, slots, fields) + rest;
      && Val(v[id..id + 2]) == 0
      && Overwrite(v, id, LE(2, at - p.at)) == VTable(at, length, slots, fields[id := p]) + rest
  {
    var v, w := VTable(at, length, slots, fields), VTable(at, length, slots, fields[id := p]);
    assert (v + rest)[id..id + 2] == LE(2, 0);
    Limits();
    ValBack(2, 0);
    forall j | 0 <= j < |v| ensures Overwrite(v + rest, id, LE(2, at - p.at))[j] == w[j] {
      if j == id || j == id + 1 {
        assert j - j % 2 == id;
      } else {
        assert j >= 4 ==> j - j % 2 != id;
      }
    }
    assert Overwrite(v + rest, id, LE(2, at - p.at))[|v|..] == rest;
    assert Overwrite(v + rest, id, LE(2, at - p.at)) == w + rest;
  }

  lemma StructsSize(align: nat, width: nat, count: nat)
    requires 0 < align && 0 < width && width % align == 0
    ensures count * width / align * align == width * count && count <= width * count
  {
    var k := width / align;
    assert width == align * k;
    Stretched(align, k, count);
    Remainder(count * width, align, k * count, 0);
    AtLeastOne(width, count);
  }

  lemma Stretched(align: nat, k: nat, count: nat)
    ensures count * (align * k) == align * (k * count) == (k * count) * align
  {
  }

  lemma AtLeastOne(width: nat, count: nat)
    requires width > 0
    ensures count <= width * count
  {
  }

  lemma ItemsSize(start: Build, n: nat, items: seq<nat>)
    requires n > 0
    ensures |items| * n == |Flat(n, items)| <= |Items(start, n, items).data|
    ensures Items(start, n, items[|items|..]) == start
  {
    FlatLength(n, items);
    ItemsLength(start, n, items);
  }

  lemma {:induction false} ItemsLength(start: Build, n: nat, items: seq<nat>)
    requires n > 0
    ensures |start.data| + |Flat(n, items)| <= |Items(start, n, items).data|
    decreases items
  {
    if items != [] {
      ItemsLength(start, n, items[1..]);
    }
  }

  lemma {:induction false} ItemsGrow(start: Build, n: nat, items: seq<nat>, i: nat)
    requires n > 0 && i < |items|
    ensures Items(start, n, items[i..]) == Element(Items(start, n, items[i + 1..]), LE(n, items[i]))
    ensures |Items(start, n, items[i..]).data| <= |Items(start, n, items).data|
    decreases i
  {
    assert items[i..][1..] == items[i + 1..];
    if i > 0 {
      ItemsGrow(start, n, items, i - 1);
    } else {
      assert items[0..] == items;
    }
  }

  lemma RefsSize(start: Build, ts: seq<nat>)
    requires Within(ts, |start.data|)
    ensures 4 * |ts| <= |RefItems(start, ts).data|
    decreases ts
  {
    if ts != [] {
      RefsSize(start, ts[1..]);
    }
  }

  lemma {:induction false} RefItemsGrow(start: Build, ts: seq<nat>, i: nat)
    requires i < |ts| && Within(ts, |start.data|)
    ensures RefItems(start, ts[i..]) == PushedRef(RefItems(start, ts[i + 1..]), ts[i])
    ensures |RefItems(start, ts[i..]).data| <= |RefItems(start, ts).data|
    decreases i
  {
    assert ts[i..][1..] == ts[i + 1..];
    if i > 0 {
      RefItemsGrow(start, ts, i - 1);
    } else {
      assert ts[0..] == ts;
    }
  }
}
