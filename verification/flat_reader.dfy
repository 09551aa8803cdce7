/** Reading a finished buffer: Table, Vector and String of msgpack_flatbuffer_compare/fb/flatbuffers.h. Places
    are counted from the start of the buffer. */
module FlatReader {
  import opened PowersOfTwo
  import opened FlatBytes
  import opened FlatVector
  import opened FlatObjects
  import opened FlatBuild
  import opened FlatTables

  datatype Option<T> = None | Some(value: T)

  /** ReadScalar, of n bytes without sign; outside of the buffer, where the code must not read, it is 0. */
  function Read(data: seq<Byte>, p: int, n: nat): nat {
    if 0 <= p && p + n <= |data| then Val(data[p..p + n]) else 0
  }

  /** A soffset_t. */
  function ReadSigned(data: seq<Byte>, p: int): int {
    var x: int := Read(data, p, 4);
    if x < 0x8000_0000 then x else x - 0x1_0000_0000
  }

  function GetRoot(data: seq<Byte>): int {
    Read(data, 0, 4)
  }

  function VTableOf(data: seq<Byte>, p: int): int {
    p - ReadSigned(data, p)
  }

  function GetOptionalFieldOffset(data: seq<Byte>, p: int, field: nat): nat {
    var vtable := VTableOf(data, p);
    if field < Read(data, vtable, 2) then Read(data, vtable + field, 2) else 0
  }

  function GetField(data: seq<Byte>, p: int, field: nat, n: nat, default: nat): nat {
    var offset := GetOptionalFieldOffset(data, p, field);
    if offset != 0 then Read(data, p + offset, n) else default
  }

  function GetPointer(data: seq<Byte>, p: int, field: nat): Option<int> {
    var offset := GetOptionalFieldOffset(data, p, field);
    if offset != 0 then Some(p + offset + Read(data, p + offset, 4)) else None
  }

  function GetStruct(data: seq<Byte>, p: int, field: nat): Option<int> {
    var offset := GetOptionalFieldOffset(data, p, field);
    if offset != 0 then Some(p + offset) else None
  }

  /** Vector::size */
  function VectorSize(data: seq<Byte>, p: int): nat {
    Read(data, p, 4)
  }

  /** Vector::Get, of numbers of n bytes. */
  function VectorGet(data: seq<Byte>, p: int, n: nat, i: nat): nat {
    Read(data, p + 4 + n * i, n)
  }

  /** Vector::Get, of offsets. */
  function VectorGetPointer(data: seq<Byte>, p: int, i: nat): int {
    p + 4 + 4 * i + Read(data, p + 4 + 4 * i, 4)
  }

  /** What is stored in a place, counted from the end, is read there. */
  lemma ReadsValue(data: seq<Byte>, o: nat, n: nat, v: nat)
    requires n <= o <= |data| && Sub(data, o, n) == LE(n, v) && v < Limit(n)
    ensures Read(data, |data| - o, n) == v
  {
    assert data[|data| - o..|data| - o + n] == Sub(data, o, n);
    ValBack(n, v);
  }

  // ----- Strings and vectors ------------------------------------------------------------------

  /** A string is read back, and is followed by a zero byte. */
  lemma TextReads(b: Build, o: nat, s: seq<Byte>)
    requires Soundness(b).Sound? && o in b.made && b.made[o] == Text(s)
    ensures var p := |b.data| - o;
      && p >= 0 && VectorSize(b.data, p) == |s| && p + 4 + |s| < |b.data|
      && b.data[p + 4..p + 4 + |s|] == s && b.data[p + 4 + |s|] == 0
  {
    Clauses(b);
    assert Stands(b, o);
    Limits();
    ReadsValue(b.data, o, 4, |s|);
    assert b.data[|b.data| - (o - 4 - |s|)] == Sub(b.data, o - 4 - |s|, 1)[0];
  }

  lemma {:induction false} FlatItem(n: nat, items: seq<nat>, i: nat)
    requires i < |items|
    ensures n * i + n <= |Flat(n, items)| && Flat(n, items)[n * i..n * i + n] == LE(n, items[i])
    decreases i
  {
    FlatLength(n, items);
    if i > 0 {
      FlatItem(n, items[1..], i - 1);
      assert n * i == n + n * (i - 1);
    }
  }

  /** Every element of a vector of numbers is read back. */
  lemma NumbersRead(b: Build, o: nat, n: nat, items: seq<nat>, i: nat)
    requires Soundness(b).Sound? && o in b.made && b.made[o] == Numbers(n, items)
    ensures var p := |b.data| - o;
      p >= 0 && VectorSize(b.data, p) == |items| && (i < |items| ==> VectorGet(b.data, p, n, i) == items[i])
  {
    Clauses(b);
    assert Stands(b, o);
    Limits();
    ReadsValue(b.data, o, 4, |items|);
    if i < |items| {
      ItemReads(b.data, o - 4, n, items, i, n * i);
    }
  }

  lemma ItemReads(data: seq<Byte>, at: nat, n: nat, items: seq<nat>, i: nat, from: nat)
    requires i < |items| && items[i] < Limit(n) && from == n * i
    requires |Flat(n, items)| <= at <= |data| && Sub(data, at, |Flat(n, items)|) == Flat(n, items)
    ensures Read(data, |data| - at + from, n) == items[i]
  {
    FlatItem(n, items, i);
    SubSub(data, at, |Flat(n, items)|, from, n);
    ReadsValue(data, at - from, n, items[i]);
  }

  lemma {:induction false} FlatRefsItem(at: nat, ts: seq<nat>, i: nat)
    requires i < |ts| && ts[i] <= at - 4 * i
    ensures 4 * i + 4 <= |FlatRefs(at, ts)| && FlatRefs(at, ts)[4 * i..4 * i + 4] == LE(4, at - 4 * i - ts[i])
    decreases i
  {
    FlatRefsLength(at, ts);
    if i > 0 {
      FlatRefsItem(at - 4, ts[1..], i - 1);
    }
  }

  /** Every element of a vector of offsets leads to the object that was put in. */
  lemma RefsRead(b: Build, o: nat, ts: seq<nat>, i: nat)
    requires Soundness(b).Sound? && o in b.made && b.made[o] == Refs(ts)
    ensures var p := |b.data| - o;
      && p >= 0 && VectorSize(b.data, p) == |ts|
      && (i < |ts| ==> ts[i] in b.made && VectorGetPointer(b.data, p, i) == |b.data| - ts[i])
  {
    Clauses(b);
    assert Stands(b, o);
    Limits();
    ReadsValue(b.data, o, 4, |ts|);
    if i < |ts| {
      RefReads(b.data, o - 4, ts, i);
    }
  }

  lemma RefReads(data: seq<Byte>, at: nat, ts: seq<nat>, i: nat)
    requires i < |ts| && ts[i] <= at - |FlatRefs(at, ts)|
    requires |FlatRefs(at, ts)| <= at <= |data| < MAX_SIZE && Sub(data, at, |FlatRefs(at, ts)|) == FlatRefs(at, ts)
    ensures Read(data, |data| - at + 4 * i, 4) == at - 4 * i - ts[i]
  {
    FlatRefsLength(at, ts);
    FlatRefsItem(at, ts, i);
    SubSub(data, at, |FlatRefs(at, ts)|, 4 * i, 4);
    Limits();
    ReadsValue(data, at - 4 * i, 4, at - 4 * i - ts[i]);
  }

  /** The structs of a vector are read back. */
  lemma StructsRead(b: Build, o: nat, align: nat, width: nat, count: nat, bytes: seq<Byte>)
    requires Soundness(b).Sound? && o in b.made && b.made[o] == Structs(align, width, count, bytes)
    ensures var p := |b.data| - o;
      p >= 0 && VectorSize(b.data, p) == count && p + 4 + |bytes| <= |b.data| && b.data[p + 4..p + 4 + |bytes|] == bytes
  {
    Clauses(b);
    assert Stands(b, o);
    Limits();
    ReadsValue(b.data, o, 4, count);
  }

  // ----- Tables -------------------------------------------------------------------------------

  /** A table knows where its vtable is, and the vtable how large it is. */
  lemma VTableReads(data: seq<Byte>, o: nat, vtable: nat, length: nat, slots: nat, fields: map<nat, Placed>)
    requires TableAt(data, o, vtable, length, slots, fields)
    ensures VTableOf(data, |data| - o) == |data| - vtable && Read(data, |data| - vtable, 2) == 2 * slots + 4
  {
    Limits();
    var far: int := vtable;
    assert Signed32(far - o) == if far < o then far - o + 0x1_0000_0000 else far - o;
    ReadsValue(data, o, 4, Signed32(far - o));
    SizeReads(data, vtable, VTable(o, length, slots, fields), 2 * slots + 4);
  }

  lemma SizeReads(data: seq<Byte>, at: nat, vt: seq<Byte>, size: nat)
    requires |vt| <= at <= |data| && Sub(data, at, |vt|) == vt && |vt| >= 2 && vt[0] == LE(2, size)[0]
      && vt[1] == LE(2, size)[1]
    requires size < 0x1_0000
    ensures Read(data, |data| - at, 2) == size
  {
    Limits();
    SubSub(data, at, |vt|, 0, 2);
    assert vt[0..2] == LE(2, size);
    ReadsValue(data, at, 2, size);
  }

  lemma PairReads(data: seq<Byte>, at: nat, vt: seq<Byte>, field: nat, v: nat)
    requires |vt| <= at <= |data| && Sub(data, at, |vt|) == vt && field + 2 <= |vt| && v < 0x1_0000
    requires vt[field] == LE(2, v)[0] && vt[field + 1] == LE(2, v)[1]
    ensures Read(data, |data| - at + field, 2) == v
  {
    Limits();
    SubSub(data, at, |vt|, field, 2);
    assert vt[field..field + 2] == LE(2, v);
    ReadsValue(data, at - field, 2, v);
  }

  lemma SlotReads(data: seq<Byte>, o: nat, vtable: nat, length: nat, slots: nat, fields: map<nat, Placed>, field: nat)
    requires TableAt(data, o, vtable, length, slots, fields) && field % 2 == 0 && 4 <= field
    ensures var p := |data| - o;
      && VTableOf(data, p) == |data| - vtable && Read(data, |data| - vtable, 2) == 2 * slots + 4
      && GetOptionalFieldOffset(data, p, field) == Slot(o, fields, field)
  {
    assert field in fields ==> FieldOf(data, o, slots, field, fields[field]);
    VTableReads(data, o, vtable, length, slots, fields);
    if field < 2 * slots + 4 {
      assert (field + 1) - (field + 1) % 2 == field;
      PairReads(data, vtable, VTable(o, length, slots, fields), field, Slot(o, fields, field));
    }
  }

  lemma TableLies(b: Build, o: nat, t: Obj)
    requires Soundness(b).Sound? && o in b.made && b.made[o] == t && t.Table?
    ensures TableAt(b.data, o, t.vtable, t.length, t.slots, t.fields)
  {
    Clauses(b);
    assert Stands(b, o);
  }

  /** A field that was not stored reads as absent, and one that was stored is found where it is. */
  lemma FieldFound(b: Build, o: nat, field: nat)
    requires Soundness(b).Sound? && o in b.made && b.made[o].Table? && field % 2 == 0 && 4 <= field
    ensures o <= |b.data|
    ensures var fields := b.made[o].fields; var offset := GetOptionalFieldOffset(b.data, |b.data| - o, field);
      if field in fields
      then offset != 0 && |b.data| - o + offset == |b.data| - fields[field].at
        && FieldAt(b.data, fields[field].at, fields[field].field)
      else offset == 0
  {
    var t := b.made[o];
    TableLies(b, o, t);
    SlotReads(b.data, o, t.vtable, t.length, t.slots, t.fields, field);
    if field in t.fields {
      assert FieldOf(b.data, o, t.slots, field, t.fields[field]);
    }
  }

  /** A number in a table is read back, whatever the default. */
  lemma NumberReads(b: Build, o: nat, field: nat, n: nat, bits: nat, default: nat)
    requires Soundness(b).Sound? && o in b.made && b.made[o].Table? && field % 2 == 0 && 4 <= field
    requires field in b.made[o].fields && b.made[o].fields[field].field == Number(n, bits)
    ensures o <= |b.data| && GetField(b.data, |b.data| - o, field, n, default) == bits
  {
    FieldFound(b, o, field);
    ReadsValue(b.data, b.made[o].fields[field].at, n, bits);
  }

  /** An offset in a table leads to the object that was put in. */
  lemma RefFieldReads(b: Build, o: nat, field: nat, t: nat)
    requires Soundness(b).Sound? && o in b.made && b.made[o].Table? && field % 2 == 0 && 4 <= field
    requires field in b.made[o].fields && b.made[o].fields[field].field == Ref(t)
    ensures o <= |b.data| && t in b.made && GetPointer(b.data, |b.data| - o, field) == Some(|b.data| - t)
  {
    FieldFound(b, o, field);
    var at := b.made[o].fields[field].at;
    Limits();
    ReadsValue(b.data, at, 4, at - t);
    RefsAreMade(b, o, field);
  }

  lemma RefsAreMade(b: Build, o: nat, field: nat)
    requires Soundness(b).Sound? && o in b.made && b.made[o].Table? && field in b.made[o].fields
    ensures Linked(b.made, b.made[o].fields[field].field)
  {
    Clauses(b);
    assert Stands(b, o);
  }

  /** A struct in a table is read back. */
  lemma StructFieldReads(b: Build, o: nat, field: nat, align: nat, bytes: seq<Byte>)
    requires Soundness(b).Sound? && o in b.made && b.made[o].Table? && field % 2 == 0 && 4 <= field
    requires field in b.made[o].fields && b.made[o].fields[field].field == Struct(align, bytes)
    ensures o <= |b.data| && GetStruct(b.data, |b.data| - o, field).Some?
    ensures var q := GetStruct(b.data, |b.data| - o, field).value;
      0 <= q && q + |bytes| <= |b.data| && b.data[q..q + |bytes|] == bytes
  {
    FieldFound(b, o, field);
  }

  /** A field that was not stored reads as its default, or as absent. */
  lemma AbsentFieldReads(b: Build, o: nat, field: nat, n: nat, default: nat)
    requires Soundness(b).Sound? && o in b.made && b.made[o].Table? && field % 2 == 0 && 4 <= field
    requires field !in b.made[o].fields
    ensures o <= |b.data| && GetField(b.data, |b.data| - o, field, n, default) == default
    ensures GetPointer(b.data, |b.data| - o, field) == None && GetStruct(b.data, |b.data| - o, field) == None
  {
    FieldFound(b, o, field);
  }

  // ----- The whole buffer ---------------------------------------------------------------------

  /** The root of a finished buffer is the object that was finished. */
  lemma RootReads(b: Build, root: nat, identifier: seq<Byte>)
    requires Soundness(b).Sound? && root in b.made && root <= |b.data| && b.minalign > 0
    requires |identifier| == 0 || |identifier| == 4
    requires |Finished(b, root, identifier).data| < MAX_SIZE
    ensures var f := Finished(b, root, identifier);
      && Soundness(f).Sound? && f.made == b.made && GetRoot(f.data) == |f.data| - root
      && |f.data| >= 4 + |identifier| && f.data[4..4 + |identifier|] == identifier
  {
    var f := Finished(b, root, identifier);
    FinishedIsSound(b, root, identifier);
    Limits();
    ReadsValue(f.data, |f.data|, 4, |f.data| - root);
    SmallPowers();
    var c := PreAligned(b, 4 + |identifier|, b.minalign);
    Clauses(b);
    assert Stands(b, root);
    Divides(4, b.minalign);
    AlignedDown(|c.data| + 4 + |identifier|, b.minalign, 4);
    DifferenceAligned(|c.data| + 4 + |identifier|, 4, 4);
    RefNoPadding(Pushed(c, identifier), root);
  }

  lemma PlaceAligned(size: nat, at: nat, m: nat, n: nat)
    requires IsPow2(n) && IsPow2(m) && n <= m && 0 < m && Over(size, m) == 0 && at <= size && 0 < n && Over(at, n) == 0
    ensures (size - at) % n == 0
  {
    Divides(n, m);
    AlignedDown(size, m, n);
    DifferenceAligned(size, at, n);
    OverIsMod(size - at, n);
  }

  /** What the address of a field must be a multiple of. */
  function Grain(f: Field): nat {
    match f
    case Number(n, _) => n
    case Struct(align, _) => align
    case Ref(_) => 4
  }

  predicate At(size: nat, place: int, n: int) {
    place <= size && n > 0 && (size - place) % n == 0
  }

  /** In a buffer of that size an object that starts `o` before the end, and all scalars in it, lie at multiples
      of their sizes from the start: the length of a string or a vector, the numbers or offsets in a vector, the
      offset of a table to its vtable, the entries of the vtable, and the fields. */
  ghost predicate LiesAligned(size: nat, o: nat, obj: Obj) {
    && At(size, o, 4)
    && match obj
       case Text(_) => true
       case Numbers(n, items) => forall i | 0 <= i < |items| :: At(size, o - 4 - n * i, n)
       case Refs(ts) => forall i | 0 <= i < |ts| :: At(size, o - 4 - 4 * i, 4)
       case Structs(_, _, _, _) => true
       case Table(vtable, _, slots, fields) =>
         && (forall j | 0 <= j < slots + 2 :: At(size, vtable - 2 * j, 2))
         && forall id {:trigger fields[id]} :: id in fields ==> At(size, fields[id].at, Grain(fields[id].field))
  }

  lemma Stride(first: int, n: nat, i: nat)
    requires n > 0 && first % n == 0
    ensures (first + n * i) % n == 0
  {
    var k := first / n;
    assert first + n * i == n * (k + i);
    Remainder(first + n * i, n, k + i, 0);
  }

  lemma ItemsAligned(size: nat, m: nat, o: nat, n: nat, items: seq<nat>)
    requires IsPow2(n) && IsPow2(m) && n <= m && 0 < m && Over(size, m) == 0 && 0 < n
    requires 4 <= o <= size && Over(o - 4, n) == 0
    ensures forall i | 0 <= i < |items| :: At(size, o - 4 - n * i, n)
  {
    PlaceAligned(size, o - 4, m, n);
    forall i | 0 <= i < |items| ensures At(size, o - 4 - n * i, n) {
      Stride(size - (o - 4), n, i);
    }
  }

  lemma TableAligned(size: nat, m: nat, data: seq<Byte>, o: nat, t: Obj)
    requires t.Table? && TableAt(data, o, t.vtable, t.length, t.slots, t.fields) && |data| <= size
    requires IsPow2(m) && 4 <= m && Over(size, m) == 0
    requires forall id {:trigger t.fields[id]} :: id in t.fields ==> Covers(m, t.fields[id].field)
    ensures forall j | 0 <= j < t.slots + 2 :: At(size, t.vtable - 2 * j, 2)
    ensures forall id {:trigger t.fields[id]} :: id in t.fields ==> At(size, t.fields[id].at, Grain(t.fields[id].field))
  {
    SmallPowers();
    PlaceAligned(size, t.vtable, m, 2);
    forall j | 0 <= j < t.slots + 2 ensures At(size, t.vtable - 2 * j, 2) {
      Stride(size - t.vtable, 2, j);
    }
    forall id | id in t.fields ensures At(size, t.fields[id].at, Grain(t.fields[id].field)) {
      assert FieldOf(data, o, t.slots, id, t.fields[id]);
      PlaceAligned(size, t.fields[id].at, m, Grain(t.fields[id].field));
    }
  }

  lemma ObjectAligned(b: Build, o: nat)
    requires Soundness(b).Sound? && o in b.made && b.minalign > 0 && Over(|b.data|, b.minalign) == 0
    ensures LiesAligned(|b.data|, o, b.made[o])
  {
    Clauses(b);
    assert Stands(b, o);
    SmallPowers();
    PlaceAligned(|b.data|, o, b.minalign, 4);
    match b.made[o]
    case Text(_) =>
    case Numbers(n, items) =>
      if items != [] {
        ItemsAligned(|b.data|, b.minalign, o, n, items);
      }
    case Refs(ts) =>
      forall i | 0 <= i < |ts| ensures At(|b.data|, o - 4 - 4 * i, 4) {
        Stride(|b.data| - o, 4, i + 1);
      }
    case Structs(_, _, _, _) =>
    case Table(_, _, _, fields) => TableAligned(|b.data|, b.minalign, b.data, o, b.made[o]);
  }

  /** In a finished buffer every object and every scalar in it, apart from vectors of structs, lies at a multiple
      of its size from the start. */
  lemma AllAligned(b: Build, root: nat, identifier: seq<Byte>)
    requires Soundness(b).Sound? && root in b.made && root <= |b.data| && b.minalign > 0
    requires |identifier| == 0 || |identifier| == 4
    requires |Finished(b, root, identifier).data| < MAX_SIZE
    ensures forall o | o in b.made :: LiesAligned(|Finished(b, root, identifier).data|, o, b.made[o])
  {
    var f := Finished(b, root, identifier);
    FinishedIsSound(b, root, identifier);
    forall o | o in b.made ensures LiesAligned(|f.data|, o, b.made[o]) {
      ObjectAligned(f, o);
    }
  }

  lemma StructsLieAligned(b: Build, o: nat)
    requires Soundness(b).Sound? && o in b.made && b.made[o].Structs?
    ensures var s := b.made[o];
      0 < s.align && IsPow2(s.align) && 4 <= o <= |b.data| && Over(o - 4, s.align) == 0 && Over(s.width, s.align) == 0
  {
    Clauses(b);
    assert Stands(b, o);
  }

  /** The structs of a vector lie at multiples of their alignment if and only if the size of the finished buffer
      is one: unlike a struct in a table, they do not count for the alignment of the whole. */
  lemma StructsAligned(b: Build, root: nat, identifier: seq<Byte>, o: nat, i: nat)
    requires Soundness(b).Sound? && root in b.made && root <= |b.data| && b.minalign > 0
    requires |identifier| == 0 || |identifier| == 4
    requires |Finished(b, root, identifier).data| < MAX_SIZE
    requires o in b.made && b.made[o].Structs? && i <= b.made[o].count
    ensures var s := b.made[o];
      && s.align > 0
      && (At(|Finished(b, root, identifier).data|, o - 4 - s.width * i, s.align) <==>
          FinishedSize(b, identifier) % s.align == 0)
      && (s.align <= b.minalign ==> FinishedSize(b, identifier) % s.align == 0)
  {
    var f := Finished(b, root, identifier);
    FinishedIsSound(b, root, identifier);
    FinishedHasSize(b, root, identifier);
    var s := b.made[o];
    StructsLieAligned(f, o);
    Size(b);
    StructAt(|f.data|, o - 4, s.align, s.width, i, b.minalign);
  }

  lemma StructAt(size: nat, at: nat, align: nat, width: nat, i: nat, m: nat)
    requires 0 < align && IsPow2(align) && at <= size && Over(at, align) == 0 && Over(width, align) == 0
    requires 0 < m && IsPow2(m) && Over(size, m) == 0
    ensures At(size, at - width * i, align) <==> size % align == 0
    ensures align <= m ==> size % align == 0
  {
    StructPlace(size, at, align, width, i);
    OverIsMod(size, align);
    if align <= m {
      Divides(align, m);
      AlignedDown(size, m, align);
    }
  }

  lemma {:induction false} StructPlace(size: nat, at: nat, align: nat, width: nat, i: nat)
    requires align > 0 && Over(width, align) == 0 && at <= size && Over(at, align) == 0
    ensures (size - (at - width * i)) % align == 0 <==> size % align == 0
    decreases i
  {
    OverIsMod(width, align);
    OverIsMod(at, align);
    SameRest(size, at, align);
    if i > 0 {
      StructPlace(size, at, align, width, i - 1);
      var before := size - (at - width * (i - 1));
      assert size - (at - width * i) == before + width;
      SameRest(before + width, width, align);
    }
  }

  lemma SameRest(a: int, b: int, n: nat)
    requires n > 0 && b % n == 0
    ensures (a - b) % n == 0 <==> a % n == 0
  {
    var k := b / n;
    assert b == n * k;
    if a % n == 0 {
      Remainder(a - b, n, a / n - k, 0);
    }
    if (a - b) % n == 0 {
      Remainder(a, n, (a - b) / n + k, 0);
    }
  }

  /** One struct of alignment 8 in a vector, finished with a file identifier, does not lie at a multiple of 8. */
  lemma StructsMisaligned()
    ensures var b := WithStructs(Fresh(), 8, 8, 1, Zeros(8)); var o: nat := 12;
      && o in b.made && b.made[o] == Structs(8, 8, 1, Zeros(8)) && o <= |b.data| && b.minalign > 0
      && (|Finished(b, o, Zeros(4)).data| - (o - 4)) % 8 != 0
  {
    var b := WithStructs(Fresh(), 8, 8, 1, Zeros(8));
    assert Pad(8, 4) == 0 && Pad(8, 8) == 0;
    assert |b.data| == 12 && b.minalign == 4;
    var c := Pushed(PreAligned(b, 8, 4), Zeros(4));
    assert Over(20, 4) == 0 && Pad(20, 4) == 0 && |c.data| == 16;
    assert Over(16, 4) == 0;
    RefNoPadding(c, 12);
  }
}
