/** What a FlatBufferBuilder has written, as values: the bytes of the buffer and what they stand for. Objects
    are named, as in the code, by how far before the end of the buffer they start. */
module FlatObjects {
  import opened PowersOfTwo
  import opened FlatBytes
  import opened FlatVector
  import opened Verdicts

  /** A field of a table; the bits of a number, the bytes of a struct, or an object. */
  datatype Field =
    | Number(size: nat, bits: nat)
    | Struct(align: nat, bytes: seq<Byte>)
    | Ref(target: nat)

  datatype Placed = Placed(at: nat, field: Field)

  datatype Obj =
    | Text(bytes: seq<Byte>)
    | Numbers(size: nat, items: seq<nat>)
    | Refs(targets: seq<nat>)
    | Structs(align: nat, width: nat, count: nat, bytes: seq<Byte>)
    | Table(vtable: nat, length: nat, slots: nat, fields: map<nat, Placed>)

  datatype FieldLoc = FieldLoc(off: nat, id: nat)

  /** The state of a builder; `locs` is its offsetbuf_. What the bytes stand for is in `fields`, for the
      table being built, and in `made`, for the finished objects. */
  datatype Build = Build(
    data: seq<Byte>, minalign: nat, vtables: seq<nat>, locs: seq<FieldLoc>,
    fields: map<nat, Placed>, made: map<nat, Obj>)

  // ----- How fields lie in the buffer ---------------------------------------------------------

  predicate FieldAt(data: seq<Byte>, at: nat, f: Field) {
    && at <= |data| < MAX_SIZE
    && match f
       case Number(n, bits) =>
         0 < n && bits < Limit(n) && n <= at && Over(at, n) == 0 && Sub(data, at, n) == LE(n, bits)
       case Struct(align, bytes) =>
         0 < align && |bytes| <= at && Over(at, align) == 0 && Sub(data, at, |bytes|) == bytes
       case Ref(t) => 4 <= at && Over(at, 4) == 0 && 0 < t <= at - 4 && Sub(data, at, 4) == LE(4, at - t)
  }

  lemma FieldStays(front: seq<Byte>, data: seq<Byte>, at: nat, f: Field)
    requires FieldAt(data, at, f) && |front + data| < MAX_SIZE
    ensures FieldAt(front + data, at, f)
  {
    match f
    case Number(n, bits) => SubPrepend(front, data, at, n);
    case Struct(align, bytes) => SubPrepend(front, data, at, |bytes|);
    case Ref(t) => SubPrepend(front, data, at, 4);
  }

  // ----- How objects lie in the buffer --------------------------------------------------------

  function Flat(n: nat, items: seq<nat>): seq<Byte>
    decreases items
  {
    if items == [] then [] else LE(n, items[0]) + Flat(n, items[1..])
  }

  /** Offsets to the targets, of which the first is stored at `at`. */
  function FlatRefs(at: int, targets: seq<nat>): seq<Byte>
    decreases targets
  {
    if targets == [] then []
    else LE(4, if at < targets[0] then 0 else at - targets[0]) + FlatRefs(at - 4, targets[1..])
  }

  lemma {:induction false} FlatLength(n: nat, items: seq<nat>)
    ensures |Flat(n, items)| == n * |items|
    decreases items
  {
    if items != [] {
      FlatLength(n, items[1..]);
      assert n * |items| == n + n * |items[1..]|;
    }
  }

  lemma {:induction false} FlatRefsLength(at: int, targets: seq<nat>)
    ensures |FlatRefs(at, targets)| == 4 * |targets|
    decreases targets
  {
    if targets != [] {
      FlatRefsLength(at - 4, targets[1..]);
    }
  }

  function Slot(at: nat, fields: map<nat, Placed>, id: nat): nat {
    if id in fields && fields[id].at <= at then at - fields[id].at else 0
  }

  function VTableByte(at: nat, length: nat, slots: nat, fields: map<nat, Placed>, j: nat): Byte {
    if j < 2 then LE(2, 2 * slots + 4)[j]
    else if j < 4 then LE(2, length)[j - 2]
    else LE(2, Slot(at, fields, j - j % 2))[j % 2]
  }

  /** The vtable of a table at `at`: its own size, the size of the table, and where the fields are in it. */
  function VTable(at: nat, length: nat, slots: nat, fields: map<nat, Placed>): (s: seq<Byte>)
    ensures |s| == 2 * slots + 4
  {
    seq(2 * slots + 4, j requires 0 <= j < 2 * slots + 4 => VTableByte(at, length, slots, fields, j))
  }

  /** Two's complement, for a soffset_t. */
  function Signed32(x: int): (w: nat)
    ensures w < 0x1_0000_0000
    decreases x < 0, if x < 0 then -x else x
  {
    if x < 0 then Signed32(x + 0x1_0000_0000) else if x < 0x1_0000_0000 then x else Signed32(x - 0x1_0000_0000)
  }

  predicate FieldOf(data: seq<Byte>, o: nat, slots: nat, id: nat, p: Placed) {
    && 4 <= id < 2 * slots + 4 && id % 2 == 0
    && p.at + 4 <= o && o - p.at < 0x1_0000
    && FieldAt(data, p.at, p.field)
  }

  predicate TableAt(data: seq<Byte>, o: nat, vtable: nat, length: nat, slots: nat, fields: map<nat, Placed>) {
    && 4 <= o <= |data| < MAX_SIZE && Over(o, 4) == 0
    && 2 * slots + 4 <= vtable <= |data| && 2 * slots + 4 < 0x1_0000 && Over(vtable, 2) == 0
    && Sub(data, o, 4) == LE(4, Signed32(vtable - o))
    && Sub(data, vtable, 2 * slots + 4) == VTable(o, length, slots, fields)
    && forall id {:trigger FieldOf(data, o, slots, id, fields[id])} :: id in fields ==>
      FieldOf(data, o, slots, id, fields[id])
  }

  predicate Lengths(data: seq<Byte>, o: nat, count: nat, n: nat) {
    && 4 + n <= o <= |data| < MAX_SIZE && Over(o, 4) == 0 && count < MAX_SIZE
    && Sub(data, o, 4) == LE(4, count)
  }

  function ObjAt(data: seq<Byte>, o: nat, obj: Obj): Verdict {
    if Lies(data, o, obj) then Sound else Broken
  }

  predicate Lies(data: seq<Byte>, o: nat, obj: Obj) {
    match obj
    case Text(s) =>
      Lengths(data, o, |s|, |s| + 1) && Sub(data, o - 4, |s|) == s && Sub(data, o - 4 - |s|, 1) == [0]
    case Numbers(n, items) =>
      && 0 < n && Lengths(data, o, |items|, |Flat(n, items)|) && Over(o - 4, n) == 0
      && (forall i | 0 <= i < |items| :: items[i] < Limit(n))
      && Sub(data, o - 4, |Flat(n, items)|) == Flat(n, items)
    case Refs(ts) =>
      && Lengths(data, o, |ts|, |FlatRefs(o - 4, ts)|)
      && (forall i | 0 <= i < |ts| :: 0 < ts[i] <= o - 4 - |FlatRefs(o - 4, ts)|)
      && Sub(data, o - 4, |FlatRefs(o - 4, ts)|) == FlatRefs(o - 4, ts)
    case Structs(align, width, count, bytes) =>
      && 0 < align && Lengths(data, o, count, |bytes|) && Over(o - 4, align) == 0
      && |bytes| == width * count && Over(width, align) == 0
      && Sub(data, o - 4, |bytes|) == bytes
    case Table(vtable, length, slots, fields) => TableAt(data, o, vtable, length, slots, fields)
  }

  lemma ObjStays(front: seq<Byte>, data: seq<Byte>, o: nat, obj: Obj)
    requires ObjAt(data, o, obj).Sound? && |front + data| < MAX_SIZE
    ensures ObjAt(front + data, o, obj).Sound?
  {
    match obj
    case Text(s) =>
      SubPrepend(front, data, o, 4);
      SubPrepend(front, data, o - 4, |s|);
      SubPrepend(front, data, o - 4 - |s|, 1);
    case Numbers(n, items) =>
      SubPrepend(front, data, o, 4);
      SubPrepend(front, data, o - 4, |Flat(n, items)|);
    case Refs(ts) =>
      SubPrepend(front, data, o, 4);
      SubPrepend(front, data, o - 4, |FlatRefs(o - 4, ts)|);
    case Structs(align, width, count, bytes) =>
      SubPrepend(front, data, o, 4);
      SubPrepend(front, data, o - 4, |bytes|);
    case Table(vtable, length, slots, fields) => TableStays(front, data, o, vtable, length, slots, fields);
  }

  lemma TableStays(
      front: seq<Byte>, data: seq<Byte>, o: nat, vtable: nat, length: nat, slots: nat, fields: map<nat, Placed>)
    requires TableAt(data, o, vtable, length, slots, fields) && |front + data| < MAX_SIZE
    ensures TableAt(front + data, o, vtable, length, slots, fields)
  {
    SubPrepend(front, data, o, 4);
    SubPrepend(front, data, vtable, 2 * slots + 4);
    forall id | id in fields ensures FieldOf(front + data, o, slots, id, fields[id]) {
      assert FieldOf(data, o, slots, id, fields[id]);
      FieldStays(front, data, fields[id].at, fields[id].field);
    }
  }

  // ----- Soundness of a builder's state -------------------------------------------------------

  /** What a field refers to has been made. */
  predicate Linked(made: map<nat, Obj>, f: Field) {
    f.Ref? ==> f.target in made
  }

  /** The alignment of the whole covers a field. */
  ghost predicate Covers(minalign: nat, f: Field) {
    match f
    case Number(n, _) => n <= minalign && IsPow2(n)
    case Struct(align, _) => align <= minalign && IsPow2(align)
    case Ref(_) => 4 <= minalign
  }

  ghost predicate FieldStands(b: Build, p: Placed) {
    FieldAt(b.data, p.at, p.field) && Linked(b.made, p.field) && Covers(b.minalign, p.field)
  }

  ghost predicate Pending(b: Build, id: nat) {
    id in b.fields && 4 <= id && id % 2 == 0 && FieldStands(b, b.fields[id])
  }

  ghost predicate FieldsStand(b: Build, fields: map<nat, Placed>) {
    forall id {:trigger fields[id]} :: id in fields ==>
      Linked(b.made, fields[id].field) && Covers(b.minalign, fields[id].field)
  }

  ghost predicate Stands(b: Build, o: nat) {
    && o in b.made && ObjAt(b.data, o, b.made[o]).Sound? && 4 <= b.minalign
    && match b.made[o]
       case Numbers(n, items) => IsPow2(n) && (items == [] || n <= b.minalign)
       case Refs(ts) => forall i | 0 <= i < |ts| :: ts[i] in b.made
       case Structs(align, _, _, _) => IsPow2(align)
       case Table(_, _, _, fields) => FieldsStand(b, fields)
       case Text(_) => true
  }

  /** A vtable that later tables may share. */
  predicate Shared(data: seq<Byte>, v: nat) {
    4 <= v <= |data| && Over(v, 2) == 0 && Val(Sub(data, v, 2)) <= v
  }

  predicate HasLoc(locs: seq<FieldLoc>, id: nat) {
    exists i :: 0 <= i < |locs| && locs[i].id == id
  }

  predicate LocOf(b: Build, i: nat) {
    i < |b.locs| && b.locs[i].id in b.fields && b.fields[b.locs[i].id].at == b.locs[i].off
  }

  datatype Clause = Fits | ObjectsStand | FieldsPend | VTablesShared | LocsMatch | LocsDiffer

  ghost predicate Obeys(k: Clause, b: Build) {
    match k
    case Fits => |b.data| < MAX_SIZE && IsPow2(b.minalign) && 0 < b.minalign < MAX_SIZE
    case ObjectsStand => forall o {:trigger Stands(b, o)} :: o in b.made ==> Stands(b, o)
    case FieldsPend => forall id {:trigger Pending(b, id)} :: id in b.fields ==> Pending(b, id) && HasLoc(b.locs, id)
    case VTablesShared => forall i {:trigger b.vtables[i]} :: 0 <= i < |b.vtables| ==> Shared(b.data, b.vtables[i])
    case LocsMatch => forall i {:trigger LocOf(b, i)} :: 0 <= i < |b.locs| ==> LocOf(b, i)
    case LocsDiffer => forall i, j :: 0 <= i < j < |b.locs| ==> b.locs[i].id != b.locs[j].id
  }

  /** Everything that is said to be made is in the buffer, and so are the fields of the table being built. */
  ghost function Soundness(b: Build): Verdict {
    if forall k {:trigger Obeys(k, b)} :: Obeys(k, b) then Sound else Broken
  }

  lemma Clauses(b: Build)
    requires Soundness(b).Sound?
    ensures Obeys(Fits, b) && Obeys(ObjectsStand, b) && Obeys(FieldsPend, b) && Obeys(VTablesShared, b)
    ensures Obeys(LocsMatch, b) && Obeys(LocsDiffer, b)
  {
  }

  lemma Settled(b: Build)
    requires Obeys(Fits, b) && Obeys(ObjectsStand, b) && Obeys(FieldsPend, b) && Obeys(VTablesShared, b)
    requires Obeys(LocsMatch, b) && Obeys(LocsDiffer, b)
    ensures Soundness(b).Sound?
  {
    forall k ensures Obeys(k, b) {
      match k
      case Fits =>
      case ObjectsStand =>
      case FieldsPend =>
      case VTablesShared =>
      case LocsMatch =>
      case LocsDiffer =>
    }
  }

  lemma Size(b: Build)
    requires Soundness(b).Sound?
    ensures |b.data| < MAX_SIZE && IsPow2(b.minalign) && 0 < b.minalign < MAX_SIZE
  {
    Clauses(b);
  }

  /** A builder that has done nothing. */
  function Fresh(): Build {
    Build([], 1, [], [], map[], map[])
  }

  lemma FreshIsSound()
    ensures Soundness(Fresh()).Sound?
  {
    SmallPowers();
    Settled(Fresh());
  }

  /** Bytes before the others and a stricter alignment change nothing of what is there. */
  lemma Grown(b: Build, front: seq<Byte>, minalign: nat)
    requires Soundness(b).Sound? && |front + b.data| < MAX_SIZE
    requires minalign == b.minalign || (b.minalign <= minalign < MAX_SIZE && IsPow2(minalign))
    ensures Soundness(b.(data := front + b.data, minalign := minalign)).Sound?
  {
    var c := b.(data := front + b.data, minalign := minalign);
    Clauses(b);
    forall o | o in c.made ensures Stands(c, o) {
      assert Stands(b, o);
      ObjStays(front, b.data, o, b.made[o]);
    }
    forall id | id in c.fields ensures Pending(c, id) && HasLoc(c.locs, id) {
      assert Pending(b, id);
      FieldStays(front, b.data, b.fields[id].at, b.fields[id].field);
    }
    forall i {:trigger b.vtables[i]} | 0 <= i < |b.vtables| ensures Shared(c.data, b.vtables[i]) {
      assert Shared(b.data, b.vtables[i]);
      SubPrepend(front, b.data, b.vtables[i], 2);
    }
    forall i | 0 <= i < |c.locs| ensures LocOf(c, i) {
      assert LocOf(b, i);
    }
    Settled(c);
  }

  /** An object at o is finished. */
  function Made(b: Build, o: nat, obj: Obj): Build {
    b.(made := b.made[o := obj])
  }

  lemma MadeIsSound(b: Build, at: nat, obj: Obj)
    requires Soundness(b).Sound? && Stands(Made(b, at, obj), at)
    ensures Soundness(Made(b, at, obj)).Sound?
  {
    var c := Made(b, at, obj);
    Clauses(b);
    forall o | o in c.made ensures Stands(c, o) {
      if o != at {
        assert Stands(b, o);
      }
    }
    forall id | id in c.fields ensures Pending(c, id) && HasLoc(c.locs, id) {
      assert Pending(b, id);
    }
    forall i | 0 <= i < |c.locs| ensures LocOf(c, i) {
      assert LocOf(b, i);
    }
    Settled(c);
  }

  /** TrackField, of the field that starts where the buffer now starts. */
  function Tracked(b: Build, id: nat, f: Field): Build {
    b.(locs := b.locs + [FieldLoc(|b.data|, id)], fields := b.fields[id := Placed(|b.data|, f)])
  }

  lemma TrackedIsSound(b: Build, id: nat, f: Field)
    requires Soundness(b).Sound? && 4 <= id && id % 2 == 0 && id !in b.fields
    requires FieldStands(b, Placed(|b.data|, f))
    ensures Soundness(Tracked(b, id, f)).Sound?
  {
    var c := Tracked(b, id, f);
    Clauses(b);
    forall o | o in c.made ensures Stands(c, o) {
      assert Stands(b, o);
    }
    forall j | j in c.fields ensures Pending(c, j) && HasLoc(c.locs, j) {
      if j == id {
        assert c.locs[|b.locs|].id == id;
      } else {
        assert Pending(b, j) && HasLoc(b.locs, j);
        var i :| 0 <= i < |b.locs| && b.locs[i].id == j;
        assert c.locs[i].id == j;
      }
    }
    forall i | 0 <= i < |c.locs| ensures LocOf(c, i) && (i < |b.locs| ==> c.locs[i].id != id) {
      if i < |b.locs| {
        assert LocOf(b, i);
      }
    }
    Settled(c);
  }
}
