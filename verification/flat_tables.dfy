/** Fields, tables with shared vtables, and the end of a buffer, as functions of a builder's state. */
module FlatTables {
  import opened PowersOfTwo
  import opened FlatBytes
  import opened FlatVector
  import opened FlatObjects
  import opened FlatBuild
  import opened Verdicts

  // ----- Fields -------------------------------------------------------------------------------

  /** AddElement, of the bits e of a number of n bytes. */
  function AddedNumber(b: Build, force: bool, id: nat, n: nat, e: nat, default: nat): (c: Build)
    requires n > 0
    ensures |b.data| <= |c.data|
  {
    if e == default && !force then b else Tracked(Element(b, LE(n, e)), id, Number(n, e))
  }

  /** AddOffset; 0 means NULL. */
  function AddedRef(b: Build, id: nat, t: nat): (c: Build)
    requires t <= |b.data|
    ensures |b.data| <= |c.data|
  {
    if t == 0 then b else Tracked(PushedRef(b, t), id, Ref(t))
  }

  /** AddStruct, of a struct that is there. */
  function AddedStruct(b: Build, id: nat, align: nat, bytes: seq<Byte>): (c: Build)
    requires align > 0
    ensures |b.data| <= |c.data|
  {
    Tracked(Pushed(Aligned(b, align), bytes), id, Struct(align, bytes))
  }

  predicate NewField(b: Build, id: nat) {
    4 <= id && id % 2 == 0 && id !in b.fields
  }

  lemma NumberIsSound(b: Build, force: bool, id: nat, n: nat, e: nat, default: nat)
    requires Soundness(b).Sound? && NewField(b, id) && IsPow2(n) && n > 0 && e < Limit(n)
    requires |AddedNumber(b, force, id, n, e, default).data| < MAX_SIZE
    ensures Soundness(AddedNumber(b, force, id, n, e, default)).Sound?
  {
    if e != default || force {
      ElementIsSound(b, LE(n, e));
      ElementAligned(b, LE(n, e));
      TrackedIsSound(Element(b, LE(n, e)), id, Number(n, e));
    }
  }

  lemma RefIsSound(b: Build, id: nat, t: nat)
    requires Soundness(b).Sound? && NewField(b, id) && t <= |b.data| && (t == 0 || t in b.made)
    requires |AddedRef(b, id, t).data| < MAX_SIZE
    ensures Soundness(AddedRef(b, id, t)).Sound?
  {
    if t != 0 {
      PushedRefIsSound(b, t);
      TrackedIsSound(PushedRef(b, t), id, Ref(t));
    }
  }

  lemma StructIsSound(b: Build, id: nat, align: nat, bytes: seq<Byte>)
    requires Soundness(b).Sound? && NewField(b, id)
    requires IsPow2(align) && align > 0 && bytes != [] && Over(|bytes|, align) == 0
    requires |AddedStruct(b, id, align, bytes).data| < MAX_SIZE
    ensures Soundness(AddedStruct(b, id, align, bytes)).Sound?
  {
    var c := Aligned(b, align);
    AlignedIsSound(b, align);
    PushedIsSound(c, bytes);
    SumAligned(|bytes|, |c.data|, align);
    SubFront(bytes, c.data);
    TrackedIsSound(Pushed(c, bytes), id, Struct(align, bytes));
  }

  // ----- Tables -------------------------------------------------------------------------------

  /** The vtable that starts v bytes before the end has the same bytes. */
  predicate Same(data: seq<Byte>, v: nat, vt: seq<Byte>) {
    2 <= v <= |data| && Val(Sub(data, v, 2)) == |vt| && |vt| <= v && Sub(data, v, |vt|) == vt
  }

  /** The first vtable with the same bytes, or 0. */
  function Shareable(data: seq<Byte>, vtables: seq<nat>, vt: seq<Byte>): (v: nat)
    ensures v != 0 ==> Same(data, v, vt)
  {
    if vtables == [] then 0
    else if Same(data, vtables[0], vt) then vtables[0]
    else Shareable(data, vtables[1..], vt)
  }

  lemma {:induction false} ShareableIsThere(data: seq<Byte>, vtables: seq<nat>, vt: seq<Byte>)
    ensures var v := Shareable(data, vtables, vt); v != 0 ==> v in vtables
    decreases vtables
  {
    if vtables != [] {
      ShareableIsThere(data, vtables[1..], vt);
    }
  }

  /** Where the table starts that EndTable finishes. */
  function TableStart(b: Build): nat {
    |b.data| + Pad(|b.data|, 4) + 4
  }

  /** The vtable that EndTable writes. */
  function NewVTable(b: Build, start: nat, slots: nat): seq<Byte>
    requires start <= TableStart(b)
  {
    VTable(TableStart(b), TableStart(b) - start, slots, b.fields)
  }

  /** The offset to the vtable, aligned, and the vtable if it is new. */
  function TableBytes(b: Build, use: nat, vt: seq<Byte>, isNew: bool): Build {
    var c := Element(b, LE(4, Signed32(use as int - TableStart(b))));
    if isNew then Pushed(c, vt) else c
  }

  /** The table at loc is made, and its vtable registered if it is new; no table is being built any more. */
  function Registered(c: Build, loc: nat, use: nat, isNew: bool, obj: Obj): Build {
    var d := Made(c, loc, obj);
    Closed(if isNew then d.(vtables := c.vtables + [use]) else d)
  }

  function Closed(b: Build): Build {
    b.(locs := [], fields := map[])
  }

  /** Where the vtable is that the table uses. */
  function UsedVTable(b: Build, vt: seq<Byte>): nat {
    var v := Shareable(b.data, b.vtables, vt);
    if v != 0 then v else TableStart(b) + |vt|
  }

  /** EndTable */
  function WithTable(b: Build, start: nat, slots: nat): Build
    requires start <= TableStart(b)
  {
    var vt := NewVTable(b, start, slots);
    var use := UsedVTable(b, vt);
    var isNew := Shareable(b.data, b.vtables, vt) == 0;
    Registered(
      TableBytes(b, use, vt, isNew), TableStart(b), use, isNew, Table(use, TableStart(b) - start, slots, b.fields))
  }

  /** What EndTable asks of its caller: the fields belong to the table and have slots, and sizes fit. */
  predicate CanEnd(b: Build, start: nat, slots: nat) {
    && start <= TableStart(b) < start + 0x1_0000 && 2 * slots + 4 < 0x1_0000
    && forall id :: id in b.fields ==> id < 2 * slots + 4 && start < b.fields[id].at
  }

  lemma VTableSize(at: nat, length: nat, slots: nat, fields: map<nat, Placed>, vt: seq<Byte>)
    requires vt == VTable(at, length, slots, fields) && 2 * slots + 4 < 0x1_0000
    ensures Val(vt[..2]) == |vt|
  {
    Limits();
    ValBack(2, 2 * slots + 4);
    assert forall j | 0 <= j < 2 :: vt[..2][j] == LE(2, 2 * slots + 4)[j];
    assert vt[..2] == LE(2, 2 * slots + 4);
  }

  /** The bytes of the table and of its vtable are where the table will look for them. */
  ghost function Written(c: Build, loc: nat, use: nat, vt: seq<Byte>): Verdict {
    if && Soundness(c).Sound? && 4 <= c.minalign && 4 <= loc <= |c.data| && Over(loc, 4) == 0
       && Sub(c.data, loc, 4) == LE(4, Signed32(use as int - loc))
       && |vt| <= use <= |c.data| && Sub(c.data, use, |vt|) == vt
    then Sound else Broken
  }

  lemma ElementWritten(b: Build, bytes: seq<Byte>)
    requires Soundness(b).Sound? && |bytes| == 4 && |Element(b, bytes).data| < MAX_SIZE
    ensures var c := Element(b, bytes);
      Soundness(c).Sound? && 4 <= c.minalign && 4 <= |c.data| && Over(|c.data|, 4) == 0
        && Sub(c.data, |c.data|, 4) == bytes
  {
    SmallPowers();
    ElementIsSound(b, bytes);
    ElementAligned(b, bytes);
  }

  lemma ElementKeeps(b: Build, bytes: seq<Byte>, o: nat, n: nat)
    requires bytes != [] && n <= o <= |b.data|
    ensures Sub(Element(b, bytes).data, o, n) == Sub(b.data, o, n)
  {
    SubPrepend(Zeros(Pad(|b.data|, |bytes|)), b.data, o, n);
    SubPrepend(bytes, Aligned(b, |bytes|).data, o, n);
  }

  lemma TableBytesAreSound(b: Build, use: nat, vt: seq<Byte>, isNew: bool)
    requires Soundness(b).Sound? && |TableBytes(b, use, vt, isNew).data| < MAX_SIZE
    requires
      if isNew then use == TableStart(b) + |vt| else |vt| <= use <= |b.data| && Sub(b.data, use, |vt|) == vt
    ensures Written(TableBytes(b, use, vt, isNew), TableStart(b), use, vt).Sound?
  {
    var loc := TableStart(b);
    var bytes := LE(4, Signed32(use as int - loc));
    var c := Element(b, bytes);
    assert |c.data| == loc;
    if isNew {
      assert |Pushed(c, vt).data| < MAX_SIZE;
      ElementWritten(b, bytes);
      NewWritten(c, loc, use, vt);
    } else {
      ElementWritten(b, bytes);
      ElementKeeps(b, bytes, use, |vt|);
      OldWritten(c, loc, use, vt);
    }
  }

  lemma NewWritten(c: Build, loc: nat, use: nat, vt: seq<Byte>)
    requires Soundness(c).Sound? && 4 <= c.minalign && 4 <= loc == |c.data| && Over(loc, 4) == 0
    requires Sub(c.data, loc, 4) == LE(4, Signed32(use as int - loc)) && use == loc + |vt|
    requires |Pushed(c, vt).data| < MAX_SIZE
    ensures Written(Pushed(c, vt), loc, use, vt).Sound?
  {
    PushedIsSound(c, vt);
    SubPrepend(vt, c.data, loc, 4);
    SubFront(vt, c.data);
  }

  lemma OldWritten(c: Build, loc: nat, use: nat, vt: seq<Byte>)
    requires Soundness(c).Sound? && 4 <= c.minalign && 4 <= loc == |c.data| && Over(loc, 4) == 0
    requires Sub(c.data, loc, 4) == LE(4, Signed32(use as int - loc))
    requires |vt| <= use <= |c.data| && Sub(c.data, use, |vt|) == vt
    ensures Written(c, loc, use, vt).Sound?
  {
  }

  /** A vtable in the buffer can be shared by later tables. */
  lemma RegisteredIsSound(b: Build, v: nat)
    requires Soundness(b).Sound? && Shared(b.data, v)
    ensures Soundness(b.(vtables := b.vtables + [v])).Sound?
  {
    var c := b.(vtables := b.vtables + [v]);
    Clauses(b);
    forall o | o in c.made ensures Stands(c, o) {
      assert Stands(b, o);
    }
    forall id | id in c.fields ensures Pending(c, id) && HasLoc(c.locs, id) {
      assert Pending(b, id) && HasLoc(b.locs, id);
    }
    forall i | 0 <= i < |c.locs| ensures LocOf(c, i) {
      assert LocOf(b, i);
    }
    forall i {:trigger c.vtables[i]} | 0 <= i < |c.vtables| ensures Shared(c.data, c.vtables[i]) {
      if i < |b.vtables| {
        assert Shared(b.data, b.vtables[i]);
      }
    }
    Settled(c);
  }

  lemma ClosedIsSound(b: Build)
    requires Soundness(b).Sound?
    ensures Soundness(Closed(b)).Sound?
  {
    var c := Closed(b);
    Clauses(b);
    forall o | o in c.made ensures Stands(c, o) {
      assert Stands(b, o);
    }
    Settled(c);
  }

  /** The fields added so far are those of the table. */
  lemma TableStands(c: Build, loc: nat, start: nat, slots: nat, use: nat)
    requires Soundness(c).Sound? && 4 <= c.minalign && 2 * slots + 4 < 0x1_0000
    requires start <= loc < start + 0x1_0000 && 4 <= loc <= |c.data| && Over(loc, 4) == 0
    requires Sub(c.data, loc, 4) == LE(4, Signed32(use as int - loc))
    requires 2 * slots + 4 <= use <= |c.data| && Over(use, 2) == 0
    requires Sub(c.data, use, 2 * slots + 4) == VTable(loc, loc - start, slots, c.fields)
    requires forall id :: id in c.fields ==> id < 2 * slots + 4 && start < c.fields[id].at <= loc - 4
    ensures Soundness(Made(c, loc, Table(use, loc - start, slots, c.fields))).Sound?
  {
    Clauses(c);
    forall id | id in c.fields
      ensures FieldOf(c.data, loc, slots, id, c.fields[id])
      ensures Linked(c.made, c.fields[id].field) && Covers(c.minalign, c.fields[id].field)
    {
      assert Pending(c, id);
    }
    var t := Table(use, loc - start, slots, c.fields);
    assert ObjAt(c.data, loc, t).Sound?;
    assert Stands(Made(c, loc, t), loc);
    MadeIsSound(c, loc, t);
  }

  lemma FieldsBelow(b: Build)
    requires Soundness(b).Sound?
    ensures forall id :: id in b.fields ==> b.fields[id].at <= |b.data|
  {
    Clauses(b);
    forall id | id in b.fields ensures b.fields[id].at <= |b.data| {
      assert Pending(b, id);
    }
  }

  lemma NewIsShared(c: Build, use: nat, loc: nat, length: nat, slots: nat, fields: map<nat, Placed>, vt: seq<Byte>)
    requires vt == VTable(loc, length, slots, fields) && 2 * slots + 4 < 0x1_0000
    requires |vt| <= use <= |c.data| && Over(use, 2) == 0 && Sub(c.data, use, |vt|) == vt
    ensures Shared(c.data, use)
  {
    VTableSize(loc, length, slots, fields, vt);
    SubSub(c.data, use, |vt|, 0, 2);
  }

  /** Every vtable lies at a multiple of 2. */
  lemma UsedIsEven(b: Build, vt: seq<Byte>, slots: nat)
    requires Soundness(b).Sound? && |vt| == 2 * slots + 4
    ensures Over(UsedVTable(b, vt), 2) == 0
  {
    var v := Shareable(b.data, b.vtables, vt);
    if v != 0 {
      Clauses(b);
      ShareableIsThere(b.data, b.vtables, vt);
      var i :| 0 <= i < |b.vtables| && b.vtables[i] == v;
      assert Shared(b.data, b.vtables[i]);
    } else {
      var place := |b.data| + Pad(|b.data|, 4);
      assert Over(4, 2) == 0;
      AlignedDown(place, 4, 2);
      Multiple(2, slots + 4);
      SumAligned(place, 2 * (slots + 4), 2);
    }
  }

  lemma RegisteredTableIsSound(
      c: Build, loc: nat, start: nat, slots: nat, use: nat, vt: seq<Byte>, isNew: bool, fields: map<nat, Placed>)
    requires Written(c, loc, use, vt).Sound? && start <= loc < start + 0x1_0000 && 2 * slots + 4 < 0x1_0000
    requires vt == VTable(loc, loc - start, slots, fields) && Over(use, 2) == 0 && c.fields == fields
    requires forall id :: id in fields ==> id < 2 * slots + 4 && start < fields[id].at <= loc - 4
    ensures Soundness(Registered(c, loc, use, isNew, Table(use, loc - start, slots, fields))).Sound?
  {
    var d := Made(c, loc, Table(use, loc - start, slots, fields));
    TableStands(c, loc, start, slots, use);
    if isNew {
      NewIsShared(c, use, loc, loc - start, slots, fields, vt);
      RegisteredIsSound(d, use);
      ClosedIsSound(d.(vtables := c.vtables + [use]));
    } else {
      ClosedIsSound(d);
    }
  }

  /** The bytes of the table, and what is known of its fields and its vtable. */
  lemma TableReady(b: Build, start: nat, slots: nat, vt: seq<Byte>, use: nat, isNew: bool)
    requires Soundness(b).Sound? && CanEnd(b, start, slots) && |vt| == 2 * slots + 4
    requires use == UsedVTable(b, vt) && isNew == (Shareable(b.data, b.vtables, vt) == 0)
    requires |TableBytes(b, use, vt, isNew).data| < MAX_SIZE
    ensures Written(TableBytes(b, use, vt, isNew), TableStart(b), use, vt).Sound? && Over(use, 2) == 0
    ensures TableBytes(b, use, vt, isNew).fields == b.fields
    ensures forall id :: id in b.fields ==> id < 2 * slots + 4 && start < b.fields[id].at <= TableStart(b) - 4
  {
    UsedIsEven(b, vt, slots);
    TableBytesAreSound(b, use, vt, isNew);
    FieldsBelow(b);
  }

  lemma TableIsSound(b: Build, start: nat, slots: nat)
    requires Soundness(b).Sound? && CanEnd(b, start, slots) && |WithTable(b, start, slots).data| < MAX_SIZE
    ensures Soundness(WithTable(b, start, slots)).Sound?
  {
    var vt := NewVTable(b, start, slots);
    var use := UsedVTable(b, vt);
    var isNew := Shareable(b.data, b.vtables, vt) == 0;
    TableReady(b, start, slots, vt, use, isNew);
    RegisteredTableIsSound(TableBytes(b, use, vt, isNew), TableStart(b), start, slots, use, vt, isNew, b.fields);
  }

  // ----- Finish -------------------------------------------------------------------------------

  /** Finish, with a file identifier of 4 bytes or none. */
  function Finished(b: Build, root: nat, identifier: seq<Byte>): Build
    requires root <= |b.data| && b.minalign > 0
  {
    PushedRef(Pushed(PreAligned(b, 4 + |identifier|, b.minalign), identifier), root)
  }

  lemma FinishedIsSound(b: Build, root: nat, identifier: seq<Byte>)
    requires Soundness(b).Sound? && root in b.made && root <= |b.data| && b.minalign > 0
    requires |identifier| == 0 || |identifier| == 4
    requires |Finished(b, root, identifier).data| < MAX_SIZE
    ensures Soundness(Finished(b, root, identifier)).Sound?
    ensures Over(|Finished(b, root, identifier).data|, b.minalign) == 0
    ensures Finished(b, root, identifier).minalign == b.minalign
    ensures var f := Finished(b, root, identifier); FieldAt(f.data, |f.data|, Ref(root))
  {
    SmallPowers();
    var c := PreAligned(b, 4 + |identifier|, b.minalign);
    var d := Pushed(c, identifier);
    PreAlignedIsSound(b, 4 + |identifier|, b.minalign);
    PushedIsSound(c, identifier);
    Clauses(b);
    assert Stands(b, root);
    Divides(4, b.minalign);
    AlignedDown(|c.data| + 4 + |identifier|, b.minalign, 4);
    DifferenceAligned(|c.data| + 4 + |identifier|, 4, 4);
    PushedRefIsSound(d, root);
    RefNoPadding(d, root);
  }

  /** How large the buffer is when it is finished. */
  function FinishedSize(b: Build, identifier: seq<Byte>): nat
    requires b.minalign > 0
  {
    var size := |b.data| + 4 + |identifier|;
    size + Pad(size, b.minalign)
  }

  lemma FinishedHasSize(b: Build, root: nat, identifier: seq<Byte>)
    requires Soundness(b).Sound? && root in b.made && root <= |b.data| && b.minalign > 0
    requires |identifier| == 0 || |identifier| == 4
    ensures |Finished(b, root, identifier).data| == FinishedSize(b, identifier)
  {
    SmallPowers();
    var c := PreAligned(b, 4 + |identifier|, b.minalign);
    Clauses(b);
    assert Stands(b, root);
    Divides(4, b.minalign);
    AlignedDown(|c.data| + 4 + |identifier|, b.minalign, 4);
    DifferenceAligned(|c.data| + 4 + |identifier|, 4, 4);
    RefNoPadding(Pushed(c, identifier), root);
  }
}
