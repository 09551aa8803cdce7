/** The Monster of flatbuffers/monster_generated.h: what goes in comes out, and its buffer is accepted. */
module FlatMonster {
  import opened PowersOfTwo
  import opened FlatBytes
  import opened FlatVector
  import opened FlatObjects
  import opened FlatBuild
  import opened FlatTables
  import opened FlatBuilder
  import opened FlatReader
  import opened FlatVerifier
  import opened Verdicts

  /** The arguments of CreateMonster: the bytes of a Vec3, numbers as their bits, and offsets, 0 for none. */
  datatype Monster = Monster(pos: Option<seq<Byte>>, mana: nat, hp: nat, name: nat, inventory: nat, color: nat)

  predicate Argument(b: Build, m: Monster) {
    && (m.pos.Some? ==> |m.pos.value| == 12)
    && m.mana < 0x1_0000 && m.hp < 0x1_0000 && m.color < 0x100
    && (m.name == 0 || (m.name in b.made && b.made[m.name].Text? && m.name <= |b.data|))
    && (m.inventory == 0 || (m.inventory in b.made && b.made[m.inventory].Numbers? && b.made[m.inventory].size == 1
                             && m.inventory <= |b.data|))
  }

  function SchemaOfMonster(): Schema {
    map["Monster" := [Member(4, Record(12)), Member(6, Scalar(2)), Member(8, Scalar(2)), Member(10, Str),
                      Member(14, Vector(1)), Member(16, Scalar(1))]]
  }

  // ----- The accessors ------------------------------------------------------------------------

  function Pos(data: seq<Byte>, p: int): Option<int> {
    GetStruct(data, p, 4)
  }

  function Mana(data: seq<Byte>, p: int): nat {
    GetField(data, p, 6, 2, 150)
  }

  function Hp(data: seq<Byte>, p: int): nat {
    GetField(data, p, 8, 2, 100)
  }

  function Name(data: seq<Byte>, p: int): Option<int> {
    GetPointer(data, p, 10)
  }

  function Inventory(data: seq<Byte>, p: int): Option<int> {
    GetPointer(data, p, 14)
  }

  function Color(data: seq<Byte>, p: int): nat {
    GetField(data, p, 16, 1, 2)
  }

  // ----- The builder --------------------------------------------------------------------------

  function AddedPos(b: Build, pos: Option<seq<Byte>>): (c: Build)
    ensures |b.data| <= |c.data|
  {
    match pos
    case None => b
    case Some(bytes) => AddedStruct(b, 4, 4, bytes)
  }

  function AddedRefs(b: Build, m: Monster): (c: Build)
    requires m.name <= |b.data| && m.inventory <= |b.data|
    ensures |b.data| <= |c.data|
  {
    AddedPos(AddedRef(AddedRef(b, 14, m.inventory), 10, m.name), m.pos)
  }

  function AddedNumbers(b: Build, force: bool, m: Monster): (c: Build)
    ensures |b.data| <= |c.data|
  {
    AddedNumber(AddedNumber(AddedNumber(b, force, 8, 2, m.hp, 100), force, 6, 2, m.mana, 150), force, 16, 1, m.color, 2)
  }

  function MonsterFields(b: Build, force: bool, m: Monster): (c: Build)
    requires m.name <= |b.data| && m.inventory <= |b.data|
    ensures |b.data| <= |c.data|
  {
    AddedNumbers(AddedRefs(b, m), force, m)
  }

  /** CreateMonster */
  function WithMonster(b: Build, force: bool, m: Monster): Build
    requires m.name <= |b.data| && m.inventory <= |b.data|
  {
    WithTable(MonsterFields(b, force, m), |b.data|, 7)
  }

  /** A field that was added or left out, and how much larger the buffer is. */
  predicate Adds(b: Build, c: Build, id: nat, f: Option<Field>, most: nat) {
    && |b.data| <= |c.data| <= |b.data| + most && c.made == b.made && c.vtables == b.vtables
    && match f
       case None => c == b
       case Some(g) => c.fields == b.fields[id := Placed(|c.data|, g)] && |b.data| < |c.data|
  }

  function RefField(t: nat): Option<Field> {
    if t == 0 then None else Some(Ref(t))
  }

  function NumberField(force: bool, n: nat, e: nat, default: nat): Option<Field> {
    if e == default && !force then None else Some(Number(n, e))
  }

  lemma RefAdds(b: Build, id: nat, t: nat)
    requires t <= |b.data|
    ensures Adds(b, AddedRef(b, id, t), id, RefField(t), 12)
  {
  }

  lemma NumberAdds(b: Build, force: bool, id: nat, n: nat, e: nat, default: nat)
    requires n > 0
    ensures Adds(b, AddedNumber(b, force, id, n, e, default), id, NumberField(force, n, e, default), n + n)
  {
  }

  lemma PosAdds(b: Build, pos: Option<seq<Byte>>)
    requires pos.Some? ==> |pos.value| == 12
    ensures Adds(b, AddedPos(b, pos), 4, if pos.Some? then Some(Struct(4, pos.value)) else None, 16)
  {
  }

  /** A field of a table is there just if it was added. */
  predicate Has(fields: map<nat, Placed>, id: nat, f: Option<Field>) {
    match f
    case None => id !in fields
    case Some(g) => id in fields && fields[id].field == g
  }

  /** The fields of a monster, with those equal to their defaults left out. */
  predicate IsMonster(fields: map<nat, Placed>, force: bool, m: Monster) {
    && Has(fields, 4, if m.pos.Some? then Some(Struct(4, m.pos.value)) else None)
    && Has(fields, 6, NumberField(force, 2, m.mana, 150))
    && Has(fields, 8, NumberField(force, 2, m.hp, 100))
    && Has(fields, 10, RefField(m.name))
    && Has(fields, 14, RefField(m.inventory))
    && Has(fields, 16, NumberField(force, 1, m.color, 2))
    && forall id :: id in fields ==> id == 4 || id == 6 || id == 8 || id == 10 || id == 14 || id == 16
  }

  lemma RefsFacts(b: Build, m: Monster)
    requires Argument(b, m) && b.fields == map[]
    ensures var c := AddedRefs(b, m);
      && |b.data| <= |c.data| <= |b.data| + 40 && c.made == b.made
      && Has(c.fields, 4, if m.pos.Some? then Some(Struct(4, m.pos.value)) else None)
      && Has(c.fields, 10, RefField(m.name)) && Has(c.fields, 14, RefField(m.inventory))
      && forall id :: id in c.fields ==> (id == 4 || id == 10 || id == 14) && |b.data| < c.fields[id].at
  {
    RefAdds(b, 14, m.inventory);
    var c := AddedRef(b, 14, m.inventory);
    RefAdds(c, 10, m.name);
    PosAdds(AddedRef(c, 10, m.name), m.pos);
  }

  lemma NumbersFacts(b: Build, force: bool, m: Monster)
    requires 6 !in b.fields && 8 !in b.fields && 16 !in b.fields
    ensures var c := AddedNumbers(b, force, m);
      && |b.data| <= |c.data| <= |b.data| + 10 && c.made == b.made
      && Has(c.fields, 6, NumberField(force, 2, m.mana, 150)) && Has(c.fields, 8, NumberField(force, 2, m.hp, 100))
      && Has(c.fields, 16, NumberField(force, 1, m.color, 2))
      && (forall id :: id in b.fields ==> id in c.fields && c.fields[id] == b.fields[id])
      && (forall id :: id in c.fields && id !in b.fields ==>
        (id == 6 || id == 8 || id == 16) && |b.data| < c.fields[id].at)
  {
    var c := AddedNumber(b, force, 8, 2, m.hp, 100);
    NumberAdds(b, force, 8, 2, m.hp, 100);
    NumberAdds(c, force, 6, 2, m.mana, 150);
    NumberAdds(AddedNumber(c, force, 6, 2, m.mana, 150), force, 16, 1, m.color, 2);
  }

  lemma MonsterFacts(b: Build, force: bool, m: Monster)
    requires Argument(b, m) && b.fields == map[]
    ensures var c := MonsterFields(b, force, m);
      c.made == b.made && IsMonster(c.fields, force, m) && CanEnd(c, |b.data|, 7) && TableStart(c) <= |b.data| + 60
  {
    RefsFacts(b, m);
    NumbersFacts(AddedRefs(b, m), force, m);
    var c := MonsterFields(b, force, m);
    var d := AddedRefs(b, m);
    forall id | id in c.fields ensures id < 18 && |b.data| < c.fields[id].at {
      if id in d.fields {
        assert c.fields[id] == d.fields[id];
      }
    }
  }

  lemma NoFields(b: Build)
    requires Soundness(b).Sound? && b.locs == []
    ensures b.fields == map[]
  {
    Clauses(b);
    forall id ensures id !in b.fields {
      var pending := Pending(b, id);
      assert !HasLoc(b.locs, id);
    }
  }

  /** CreateMonster */
  method CreateMonster(fbb: FlatBufferBuilder, m: Monster) returns (o: nat)
    requires fbb.Valid() && fbb.offsetbuf == [] && Argument(fbb.State(), m)
    requires |fbb.State().data| + 80 < MAX_SIZE
    modifies fbb, fbb.buf, fbb.buf.buf
    ensures fbb.Valid() && (fbb.buf.buf == old(fbb.buf.buf) || fresh(fbb.buf.buf))
    ensures fbb.State() == WithMonster(old(fbb.State()), fbb.forceDefaults, m)
    ensures o == TableStart(MonsterFields(old(fbb.State()), fbb.forceDefaults, m))
    ensures fbb.forceDefaults == old(fbb.forceDefaults)
  {
    NoFields(fbb.State());
    var start := fbb.StartTable();
    AddFields(fbb, m);
    o := fbb.EndTable(start, 7);
  }

  method AddFields(fbb: FlatBufferBuilder, m: Monster)
    requires fbb.Valid() && fbb.State().fields == map[] && Argument(fbb.State(), m)
    requires |fbb.State().data| + 80 < MAX_SIZE
    modifies fbb, fbb.buf, fbb.buf.buf
    ensures fbb.Valid() && (fbb.buf.buf == old(fbb.buf.buf) || fresh(fbb.buf.buf))
    ensures fbb.State() == MonsterFields(old(fbb.State()), fbb.forceDefaults, m)
    ensures CanEnd(fbb.State(), |old(fbb.State()).data|, 7)
    ensures TableStart(fbb.State()) <= |old(fbb.State()).data| + 60 && fbb.forceDefaults == old(fbb.forceDefaults)
  {
    MonsterFacts(fbb.State(), fbb.forceDefaults, m);
    RefsFacts(fbb.State(), m);
    AddRefs(fbb, m);
    AddNumbers(fbb, m);
  }

  method AddRefs(fbb: FlatBufferBuilder, m: Monster)
    requires fbb.Valid() && fbb.State().fields == map[] && Argument(fbb.State(), m)
    requires |fbb.State().data| + 80 < MAX_SIZE
    modifies fbb, fbb.buf, fbb.buf.buf
    ensures fbb.Valid() && (fbb.buf.buf == old(fbb.buf.buf) || fresh(fbb.buf.buf))
    ensures fbb.State() == AddedRefs(old(fbb.State()), m) && fbb.forceDefaults == old(fbb.forceDefaults)
  {
    SmallPowers();
    RefAdds(fbb.State(), 14, m.inventory);
    fbb.AddOffset(14, m.inventory);
    RefAdds(fbb.State(), 10, m.name);
    fbb.AddOffset(10, m.name);
    match m.pos
    case None =>
    case Some(bytes) =>
      PosAdds(fbb.State(), m.pos);
      assert Over(12, 4) == 0;
      fbb.AddStruct(4, 4, bytes);
  }

  method AddNumbers(fbb: FlatBufferBuilder, m: Monster)
    requires fbb.Valid() && m.mana < 0x1_0000 && m.hp < 0x1_0000 && m.color < 0x100
    requires 6 !in fbb.fields && 8 !in fbb.fields && 16 !in fbb.fields
    requires |fbb.State().data| + 40 < MAX_SIZE
    modifies fbb, fbb.buf, fbb.buf.buf
    ensures fbb.Valid() && (fbb.buf.buf == old(fbb.buf.buf) || fresh(fbb.buf.buf))
    ensures fbb.State() == AddedNumbers(old(fbb.State()), fbb.forceDefaults, m)
    ensures fbb.forceDefaults == old(fbb.forceDefaults)
  {
    SmallPowers();
    Limits();
    NumberAdds(fbb.State(), fbb.forceDefaults, 8, 2, m.hp, 100);
    fbb.AddElement(8, 2, m.hp, 100);
    NumberAdds(fbb.State(), fbb.forceDefaults, 6, 2, m.mana, 150);
    fbb.AddElement(6, 2, m.mana, 150);
    NumberAdds(fbb.State(), fbb.forceDefaults, 16, 1, m.color, 2);
    fbb.AddElement(16, 1, m.color, 2);
  }

  // ----- What is read back --------------------------------------------------------------------

  predicate HasNumbers(d: seq<Byte>, p: int, m: Monster) {
    Mana(d, p) == m.mana && Hp(d, p) == m.hp && Color(d, p) == m.color
  }

  predicate HasPos(d: seq<Byte>, p: int, pos: Option<seq<Byte>>) {
    match pos
    case None => Pos(d, p).None?
    case Some(bytes) =>
      var q := Pos(d, p);
      q.Some? && 0 <= q.value && q.value + |bytes| <= |d| && d[q.value..q.value + |bytes|] == bytes
  }

  predicate HasRefs(d: seq<Byte>, p: int, m: Monster) {
    && Name(d, p) == (if m.name == 0 then None else Some(|d| - m.name))
    && Inventory(d, p) == (if m.inventory == 0 then None else Some(|d| - m.inventory))
  }

  /** In any later state of the buffer the accessors give back what CreateMonster was given. */
  lemma MonsterReads(b: Build, o: nat, force: bool, m: Monster)
    requires Soundness(b).Sound? && o in b.made && b.made[o].Table? && IsMonster(b.made[o].fields, force, m)
    ensures o <= |b.data| && HasNumbers(b.data, |b.data| - o, m) && HasRefs(b.data, |b.data| - o, m)
    ensures HasPos(b.data, |b.data| - o, m.pos)
  {
    MonsterNumbers(b, o, force, m);
    MonsterRefs(b, o, force, m);
    PosReads(b, o, m.pos);
  }

  lemma MonsterRefs(b: Build, o: nat, force: bool, m: Monster)
    requires Soundness(b).Sound? && o in b.made && b.made[o].Table? && IsMonster(b.made[o].fields, force, m)
    ensures o <= |b.data| && HasRefs(b.data, |b.data| - o, m)
  {
    OneRef(b, o, 10, m.name);
    OneRef(b, o, 14, m.inventory);
  }

  lemma MonsterNumbers(b: Build, o: nat, force: bool, m: Monster)
    requires Soundness(b).Sound? && o in b.made && b.made[o].Table? && IsMonster(b.made[o].fields, force, m)
    ensures o <= |b.data| && HasNumbers(b.data, |b.data| - o, m)
  {
    OneNumber(b, o, 6, NumberField(force, 2, m.mana, 150), 2, m.mana, 150);
    OneNumber(b, o, 8, NumberField(force, 2, m.hp, 100), 2, m.hp, 100);
    OneNumber(b, o, 16, NumberField(force, 1, m.color, 2), 1, m.color, 2);
  }

  lemma PosReads(b: Build, o: nat, pos: Option<seq<Byte>>)
    requires Soundness(b).Sound? && o in b.made && b.made[o].Table?
    requires Has(b.made[o].fields, 4, if pos.Some? then Some(Struct(4, pos.value)) else None)
    ensures o <= |b.data| && HasPos(b.data, |b.data| - o, pos)
  {
    if pos.Some? {
      StructFieldReads(b, o, 4, 4, pos.value);
    } else {
      AbsentFieldReads(b, o, 4, 1, 0);
    }
  }

  lemma OneNumber(b: Build, o: nat, id: nat, f: Option<Field>, n: nat, e: nat, default: nat)
    requires Soundness(b).Sound? && o in b.made && b.made[o].Table? && id % 2 == 0 && 4 <= id
    requires Has(b.made[o].fields, id, f) && ((f == None && e == default) || f == Some(Number(n, e)))
    ensures o <= |b.data| && GetField(b.data, |b.data| - o, id, n, default) == e
  {
    match f
    case None => AbsentFieldReads(b, o, id, n, default);
    case Some(_) => NumberReads(b, o, id, n, e, default);
  }

  lemma OneRef(b: Build, o: nat, id: nat, t: nat)
    requires Soundness(b).Sound? && o in b.made && b.made[o].Table? && id % 2 == 0 && 4 <= id
    requires Has(b.made[o].fields, id, RefField(t))
    ensures o <= |b.data| && GetPointer(b.data, |b.data| - o, id) == if t == 0 then None else Some(|b.data| - t)
  {
    if t == 0 {
      AbsentFieldReads(b, o, id, 1, 0);
    } else {
      RefFieldReads(b, o, id, t);
    }
  }

  /** A monster is a table of its schema, alone at the top. */
  lemma MonsterTyped(made: map<nat, Obj>, o: nat, force: bool, m: Monster)
    requires o in made && made[o].Table? && IsMonster(made[o].fields, force, m)
    requires m.pos.Some? ==> |m.pos.value| == 12
    requires m.name != 0 ==> TextAt(made, m.name)
    requires m.inventory != 0 ==> m.inventory in made && made[m.inventory].Numbers? && made[m.inventory].size == 1
    ensures TypedTable(made, SchemaOfMonster(), o, "Monster")
    ensures TableCost(made, SchemaOfMonster(), o, "Monster") == Cost(1, 1)
  {
    var s := SchemaOfMonster();
    var members := s["Monster"];
    forall i | 0 <= i < |members| ensures TypedMember(made, s, o, made[o].fields, members[i]) {
    }
    MembersAreFlat(made, s, o, made[o].fields, members);
  }

  lemma {:induction false} MembersAreFlat(
      made: map<nat, Obj>, s: Schema, o: nat, fields: map<nat, Placed>, members: seq<Member>)
    requires forall i | 0 <= i < |members| :: !members[i].kind.Child? && !members[i].kind.Children?
    ensures MembersCost(made, s, o, fields, members) == Cost(0, 0)
    decreases members
  {
    if members != [] {
      MembersAreFlat(made, s, o, fields, members[1..]);
    }
  }

  lemma RefsAreSound(b: Build, m: Monster)
    requires Soundness(b).Sound? && Argument(b, m) && b.fields == map[] && |b.data| + 80 < MAX_SIZE
    ensures Soundness(AddedRefs(b, m)).Sound?
  {
    SmallPowers();
    var c := AddedRef(b, 14, m.inventory);
    RefAdds(b, 14, m.inventory);
    RefIsSound(b, 14, m.inventory);
    RefAdds(c, 10, m.name);
    RefIsSound(c, 10, m.name);
    PosAdds(AddedRef(c, 10, m.name), m.pos);
    if m.pos.Some? {
      assert Over(12, 4) == 0;
      StructIsSound(AddedRef(c, 10, m.name), 4, 4, m.pos.value);
    }
  }

  lemma NumbersAreSound(b: Build, force: bool, m: Monster)
    requires Soundness(b).Sound? && m.mana < 0x1_0000 && m.hp < 0x1_0000 && m.color < 0x100
    requires 6 !in b.fields && 8 !in b.fields && 16 !in b.fields && |b.data| + 40 < MAX_SIZE
    ensures Soundness(AddedNumbers(b, force, m)).Sound?
  {
    SmallPowers();
    Limits();
    var c := AddedNumber(b, force, 8, 2, m.hp, 100);
    NumberAdds(b, force, 8, 2, m.hp, 100);
    NumberIsSound(b, force, 8, 2, m.hp, 100);
    NumberAdds(c, force, 6, 2, m.mana, 150);
    NumberIsSound(c, force, 6, 2, m.mana, 150);
    var d := AddedNumber(c, force, 6, 2, m.mana, 150);
    NumberAdds(d, force, 16, 1, m.color, 2);
    NumberIsSound(d, force, 16, 1, m.color, 2);
  }

  /** The state c after CreateMonster: there is one more object, the monster at o. */
  ghost function Created(b: Build, force: bool, m: Monster, c: Build, o: nat): Verdict {
    if && Soundness(c).Sound? && |b.data| < o <= |c.data| <= |b.data| + 80
       && o in c.made && c.made[o].Table? && IsMonster(c.made[o].fields, force, m) && c.made == b.made[o := c.made[o]]
    then Sound else Broken
  }

  lemma MonsterIsCreated(b: Build, force: bool, m: Monster)
    requires Soundness(b).Sound? && Argument(b, m) && b.fields == map[] && |b.data| + 100 < MAX_SIZE
    ensures Created(b, force, m, WithMonster(b, force, m), TableStart(MonsterFields(b, force, m))).Sound?
  {
    var d := MonsterFields(b, force, m);
    MonsterFacts(b, force, m);
    FieldsAreSound(b, force, m);
    TableGrows(d, |b.data|, 7);
    TableIsSound(d, |b.data|, 7);
    TableIsCreated(b, force, m, d, WithTable(d, |b.data|, 7), TableStart(d));
  }

  lemma FieldsAreSound(b: Build, force: bool, m: Monster)
    requires Soundness(b).Sound? && Argument(b, m) && b.fields == map[] && |b.data| + 100 < MAX_SIZE
    ensures Soundness(MonsterFields(b, force, m)).Sound?
  {
    RefsFacts(b, m);
    RefsAreSound(b, m);
    NumbersAreSound(AddedRefs(b, m), force, m);
  }

  lemma TableIsCreated(b: Build, force: bool, m: Monster, d: Build, c: Build, o: nat)
    requires Soundness(c).Sound? && |b.data| < o <= |c.data| <= |b.data| + 80
    requires d.made == b.made && IsMonster(d.fields, force, m)
    requires o in c.made && c.made == d.made[o := c.made[o]] && c.made[o].Table? && c.made[o].fields == d.fields
    ensures Created(b, force, m, c, o).Sound?
  {
  }

  lemma TableGrows(b: Build, start: nat, slots: nat)
    requires start <= TableStart(b)
    ensures var c := WithTable(b, start, slots); var o := TableStart(b);
      && |b.data| < o <= |c.data| <= o + 2 * slots + 4
      && o in c.made && c.made == b.made[o := c.made[o]] && c.made[o].Table? && c.made[o].fields == b.fields
  {
  }

  /** What Finish makes of c, with root o. */
  ghost function Sealed(c: Build, o: nat, f: Build): Verdict {
    if Soundness(f).Sound? && f.made == c.made && GetRoot(f.data) == |f.data| - o && |f.data| >= 4 && o <= |f.data|
    then Sound else Broken
  }

  lemma FinishSeals(c: Build, o: nat, identifier: seq<Byte>)
    requires Soundness(c).Sound? && o in c.made && o <= |c.data| && c.minalign > 0
    requires |identifier| == 0 || |identifier| == 4
    requires |Finished(c, o, identifier).data| < MAX_SIZE
    ensures Sealed(c, o, Finished(c, o, identifier)).Sound?
  {
    RootReads(c, o, identifier);
  }

  /** What CreateMonster and Finish make is accepted by the verifier. */
  lemma MonsterAccepted(b: Build, force: bool, m: Monster, c: Build, o: nat, f: Build)
    requires Argument(b, m) && Created(b, force, m, c, o).Sound? && Sealed(c, o, f).Sound?
    ensures VerifyBuffer(f.data, "Monster", SchemaOfMonster())
  {
    MonsterTyped(f.made, o, force, m);
    FinishedVerified(f, o, SchemaOfMonster(), "Monster");
  }

  /** The root of the finished buffer gives back the arguments of CreateMonster. */
  lemma MonsterBack(b: Build, force: bool, m: Monster, c: Build, o: nat, f: Build)
    requires Argument(b, m) && Created(b, force, m, c, o).Sound? && Sealed(c, o, f).Sound?
    ensures HasNumbers(f.data, GetRoot(f.data), m) && HasPos(f.data, GetRoot(f.data), m.pos)
    ensures HasRefs(f.data, GetRoot(f.data), m)
  {
    MonsterReads(f, o, force, m);
  }

  /** A string is read there. */
  predicate IsText(data: seq<Byte>, p: Option<int>, s: seq<Byte>) {
    && p.Some? && 0 <= p.value && VectorSize(data, p.value) == |s| && p.value + 4 + |s| < |data|
    && data[p.value + 4..p.value + 4 + |s|] == s && data[p.value + 4 + |s|] == 0
  }

  /** A vector of bytes is read there. */
  predicate IsVector(data: seq<Byte>, p: Option<int>, items: seq<nat>) {
    && p.Some? && VectorSize(data, p.value) == |items|
    && forall i | 0 <= i < |items| :: VectorGet(data, p.value, 1, i) == items[i]
  }

  lemma NameReads(f: Build, o: nat, t: nat)
    requires Soundness(f).Sound? && o in f.made && f.made[o].Table? && t != 0 && t in f.made && f.made[t].Text?
    requires Has(f.made[o].fields, 10, RefField(t)) && o <= |f.data|
    ensures IsText(f.data, Name(f.data, |f.data| - o), f.made[t].bytes)
  {
    OneRef(f, o, 10, t);
    TextReads(f, t, f.made[t].bytes);
  }

  lemma InventoryReads(f: Build, o: nat, t: nat)
    requires Soundness(f).Sound? && o in f.made && f.made[o].Table? && t != 0 && t in f.made && f.made[t].Numbers?
    requires f.made[t].size == 1 && Has(f.made[o].fields, 14, RefField(t)) && o <= |f.data|
    ensures IsVector(f.data, Inventory(f.data, |f.data| - o), f.made[t].items)
  {
    OneRef(f, o, 14, t);
    var items := f.made[t].items;
    NumbersRead(f, t, 1, items, |items|);
    forall i | 0 <= i < |items| ensures VectorGet(f.data, |f.data| - t, 1, i) == items[i] {
      NumbersRead(f, t, 1, items, i);
    }
  }

  /** The name of the monster is the string that was put in. */
  lemma MonsterName(b: Build, force: bool, m: Monster, c: Build, o: nat, f: Build)
    requires Argument(b, m) && Created(b, force, m, c, o).Sound? && Sealed(c, o, f).Sound? && m.name != 0
    ensures IsText(f.data, Name(f.data, GetRoot(f.data)), b.made[m.name].bytes)
  {
    NameReads(f, o, m.name);
  }

  /** And so is its inventory. */
  lemma MonsterInventory(b: Build, force: bool, m: Monster, c: Build, o: nat, f: Build)
    requires Argument(b, m) && Created(b, force, m, c, o).Sound? && Sealed(c, o, f).Sound? && m.inventory != 0
    ensures IsVector(f.data, Inventory(f.data, GetRoot(f.data)), b.made[m.inventory].items)
  {
    InventoryReads(f, o, m.inventory);
  }

  /** The accessors of a buffer give back a monster: its numbers, its position, its name and its inventory. */
  predicate HoldsMonster(data: seq<Byte>, made: map<nat, Obj>, m: Monster) {
    var p := GetRoot(data);
    && HasNumbers(data, p, m) && HasPos(data, p, m.pos)
    && (if m.name == 0 then Name(data, p).None?
        else m.name in made && made[m.name].Text? && IsText(data, Name(data, p), made[m.name].bytes))
    && (if m.inventory == 0 then Inventory(data, p).None?
        else m.inventory in made && made[m.inventory].Numbers?
             && IsVector(data, Inventory(data, p), made[m.inventory].items))
  }

  lemma MonsterHeld(b: Build, force: bool, m: Monster, c: Build, o: nat, f: Build)
    requires Argument(b, m) && Created(b, force, m, c, o).Sound? && Sealed(c, o, f).Sound?
    ensures HoldsMonster(f.data, b.made, m)
  {
    MonsterBack(b, force, m, c, o, f);
    if m.name != 0 {
      MonsterName(b, force, m, c, o, f);
    }
    if m.inventory != 0 {
      MonsterInventory(b, force, m, c, o, f);
    }
  }

  /** Whatever has been built before, CreateMonster followed by Finish makes a buffer that the verifier of its
      schema accepts and whose accessors give back the arguments of CreateMonster. */
  lemma MonsterRoundTrip(b: Build, force: bool, m: Monster, o: nat, identifier: seq<Byte>)
    requires Soundness(b).Sound? && Argument(b, m) && b.fields == map[] && |b.data| + 100 < MAX_SIZE
    requires o == TableStart(MonsterFields(b, force, m)) && (|identifier| == 0 || |identifier| == 4)
    requires |Finished(WithMonster(b, force, m), o, identifier).data| < MAX_SIZE
    ensures VerifyBuffer(Finished(WithMonster(b, force, m), o, identifier).data, "Monster", SchemaOfMonster())
    ensures HoldsMonster(Finished(WithMonster(b, force, m), o, identifier).data, b.made, m)
  {
    var c := WithMonster(b, force, m);
    var f := Finished(c, o, identifier);
    MonsterIsCreated(b, force, m);
    FinishSeals(c, o, identifier);
    MonsterAccepted(b, force, m, c, o, f);
    MonsterHeld(b, force, m, c, o, f);
  }
}
