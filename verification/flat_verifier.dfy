/** Verifier of msgpack_flatbuffer_compare/fb/flatbuffers.h, with the Verify that is generated for each type of
    table, here from a schema. */
module FlatVerifier {
  import opened PowersOfTwo
  import opened FlatBytes
  import opened FlatVector
  import opened FlatObjects
  import opened FlatBuild
  import opened FlatTables
  import opened FlatReader

  datatype Kind =
    | Scalar(size: nat)
    | Record(size: nat)
    | Str
    | Vector(size: nat)
    | Strs
    | Child(name: string)
    | Children(name: string)

  datatype Member = Member(field: nat, kind: Kind)

  type Schema = map<string, seq<Member>>

  datatype Bounds = Bounds(maxDepth: nat, maxTables: nat)

  // ----- The verifier -------------------------------------------------------------------------

  /** Verify, of a range of bytes. */
  predicate InRange(data: seq<Byte>, p: int, len: nat) {
    len <= |data| && 0 <= p <= |data| - len
  }

  /** VerifyVector, and where the vector ends. */
  function VectorEnd(data: seq<Byte>, p: int, size: nat): Option<int> {
    if !InRange(data, p, 4) then None
    else
      var byteSize := 4 + size * Read(data, p, 4);
      if InRange(data, p, byteSize) then Some(p + byteSize) else None
  }

  predicate VerifyVector(data: seq<Byte>, p: Option<int>, size: nat) {
    p == None || VectorEnd(data, p.value, size).Some?
  }

  predicate VerifyString(data: seq<Byte>, p: Option<int>) {
    match p
    case None => true
    case Some(q) =>
      match VectorEnd(data, q, 1)
      case None => false
      case Some(end) => InRange(data, end, 1) && Read(data, end, 1) == 0
  }

  predicate VerifyStrings(data: seq<Byte>, p: int, i: nat, count: nat)
    decreases count - i
  {
    i >= count || (VerifyString(data, Some(VectorGetPointer(data, p, i))) && VerifyStrings(data, p, i + 1, count))
  }

  predicate VerifyField(data: seq<Byte>, p: int, field: nat, size: nat) {
    var offset := GetOptionalFieldOffset(data, p, field);
    offset == 0 || InRange(data, p + offset, size)
  }

  /** The Verify of a type of table. The result is the number of tables seen so far, if all is well. */
  function VerifyTable(
      data: seq<Byte>, p: int, name: string, schema: Schema, depth: nat, tables: nat, max: Bounds): Option<nat>
    requires depth <= max.maxDepth
    decreases max.maxDepth - depth, 0, 0
  {
    if !InRange(data, p, 4) then None
    else if depth + 1 > max.maxDepth || tables + 1 > max.maxTables then None
    else
      var vtable := VTableOf(data, p);
      if !InRange(data, vtable, 2) || !InRange(data, vtable, Read(data, vtable, 2)) then None
      else if name !in schema then None
      else VerifyMembers(data, p, schema[name], schema, depth + 1, tables + 1, max)
  }

  function VerifyMembers(
    data: seq<Byte>, p: int, members: seq<Member>, schema: Schema, depth: nat, tables: nat, max: Bounds): Option<nat>
    requires depth <= max.maxDepth
    decreases max.maxDepth - depth, 3, |members|
  {
    if members == [] then Some(tables)
    else
      match VerifyMember(data, p, members[0], schema, depth, tables, max)
      case None => None
      case Some(t) => VerifyMembers(data, p, members[1..], schema, depth, t, max)
  }

  function VerifyMember(
    data: seq<Byte>, p: int, m: Member, schema: Schema, depth: nat, tables: nat, max: Bounds): Option<nat>
    requires depth <= max.maxDepth
    decreases max.maxDepth - depth, 2, 0
  {
    match m.kind
    case Scalar(n) => if VerifyField(data, p, m.field, n) then Some(tables) else None
    case Record(n) => if VerifyField(data, p, m.field, n) then Some(tables) else None
    case Str =>
      if VerifyField(data, p, m.field, 4) && VerifyString(data, GetPointer(data, p, m.field))
      then Some(tables) else None
    case Vector(n) =>
      if VerifyField(data, p, m.field, 4) && VerifyVector(data, GetPointer(data, p, m.field), n)
      then Some(tables) else None
    case Strs =>
      var q := GetPointer(data, p, m.field);
      if && VerifyField(data, p, m.field, 4) && VerifyVector(data, q, 4)
         && (q.Some? ==> VerifyStrings(data, q.value, 0, VectorSize(data, q.value)))
      then Some(tables) else None
    case Child(name) =>
      var q := GetPointer(data, p, m.field);
      if !VerifyField(data, p, m.field, 4) then None
      else if q.None? then Some(tables)
      else VerifyTable(data, q.value, name, schema, depth, tables, max)
    case Children(name) =>
      var q := GetPointer(data, p, m.field);
      if !VerifyField(data, p, m.field, 4) || !VerifyVector(data, q, 4) then None
      else if q.None? then Some(tables)
      else VerifyTables(data, q.value, 0, VectorSize(data, q.value), name, schema, depth, tables, max)
  }

  /** VerifyVectorOfTables, from element i on. */
  function VerifyTables(
    data: seq<Byte>, p: int, i: nat, count: nat, name: string, schema: Schema, depth: nat, tables: nat, max: Bounds)
    : Option<nat>
    requires depth <= max.maxDepth
    decreases max.maxDepth - depth, 1, count - i
  {
    if i >= count then Some(tables)
    else
      match VerifyTable(data, VectorGetPointer(data, p, i), name, schema, depth, tables, max)
      case None => None
      case Some(t) => VerifyTables(data, p, i + 1, count, name, schema, depth, t, max)
  }

  /** VerifyBuffer, with the default bounds. */
  predicate VerifyBuffer(data: seq<Byte>, name: string, schema: Schema) {
    InRange(data, 0, 4) && VerifyTable(data, GetRoot(data), name, schema, 0, 0, Bounds(64, 1_000_000)).Some?
  }

  // ----- What the builder makes ---------------------------------------------------------------

  predicate TextAt(made: map<nat, Obj>, t: nat) {
    t in made && made[t].Text?
  }

  /** A vector of numbers or of structs, of n bytes each. */
  predicate HasElements(v: Obj, n: nat) {
    (v.Numbers? && v.size == n) || (v.Structs? && v.width == n)
  }

  /** The objects at o and below it have the types of the schema. */
  predicate TypedTable(made: map<nat, Obj>, schema: Schema, o: nat, name: string)
    decreases o, 0
  {
    && o in made && made[o].Table? && name in schema
    && forall i | 0 <= i < |schema[name]| :: TypedMember(made, schema, o, made[o].fields, schema[name][i])
  }

  predicate TypedMember(made: map<nat, Obj>, schema: Schema, o: nat, fields: map<nat, Placed>, m: Member)
    decreases o, 0, 0
  {
    && 4 <= m.field && m.field % 2 == 0
    && (m.field in fields ==>
          match (m.kind, fields[m.field].field)
          case (Scalar(n), Number(size, _)) => n == size
          case (Record(n), Struct(_, bytes)) => n == |bytes|
          case (Str, Ref(t)) => TextAt(made, t)
          case (Vector(n), Ref(t)) => t in made && HasElements(made[t], n)
          case (Strs, Ref(t)) =>
            t in made && made[t].Refs? && forall i | 0 <= i < |made[t].targets| :: TextAt(made, made[t].targets[i])
          case (Child(name), Ref(t)) => t < o && TypedTable(made, schema, t, name)
          case (Children(name), Ref(t)) =>
            && t < o && t in made && made[t].Refs?
            && forall i | 0 <= i < |made[t].targets| ::
              made[t].targets[i] < o && TypedTable(made, schema, made[t].targets[i], name)
          case _ => false)
  }

  // ----- Single fields, strings and vectors ---------------------------------------------------

  function FieldSize(f: Field): nat {
    match f
    case Number(n, _) => n
    case Struct(_, bytes) => |bytes|
    case Ref(_) => 4
  }

  lemma FieldVerified(b: Build, o: nat, field: nat, n: nat)
    requires Soundness(b).Sound? && o in b.made && b.made[o].Table? && field % 2 == 0 && 4 <= field
    requires field in b.made[o].fields ==> FieldSize(b.made[o].fields[field].field) == n
    ensures o <= |b.data| && VerifyField(b.data, |b.data| - o, field, n)
  {
    FieldFound(b, o, field);
  }

  lemma StringVerified(b: Build, t: nat)
    requires Soundness(b).Sound? && t in b.made && b.made[t].Text?
    ensures t <= |b.data| && VerifyString(b.data, Some(|b.data| - t))
  {
    var s := b.made[t].bytes;
    TextReads(b, t, s);
    var end: int := |b.data| - t + 4 + |s|;
    assert b.data[end..end + 1] == [0];
    assert Val([0]) == 0;
  }

  lemma NumbersVerified(b: Build, t: nat, n: nat)
    requires Soundness(b).Sound? && t in b.made && b.made[t].Numbers? && b.made[t].size == n
    ensures t <= |b.data| && VerifyVector(b.data, Some(|b.data| - t), n)
  {
    var items := b.made[t].items;
    NumbersRead(b, t, n, items, |items|);
    FlatLength(n, items);
    Clauses(b);
    assert Stands(b, t);
  }

  lemma StructsVerified(b: Build, t: nat, n: nat)
    requires Soundness(b).Sound? && t in b.made && b.made[t].Structs? && b.made[t].width == n
    ensures t <= |b.data| && VerifyVector(b.data, Some(|b.data| - t), n)
  {
    var v := b.made[t];
    StructsRead(b, t, v.align, n, v.count, v.bytes);
    Clauses(b);
    assert Stands(b, t);
  }

  lemma RefsVerified(b: Build, t: nat)
    requires Soundness(b).Sound? && t in b.made && b.made[t].Refs?
    ensures t <= |b.data| && VerifyVector(b.data, Some(|b.data| - t), 4)
    ensures VectorSize(b.data, |b.data| - t) == |b.made[t].targets|
  {
    var ts := b.made[t].targets;
    RefsRead(b, t, ts, |ts|);
    FlatRefsLength(t - 4, ts);
    Clauses(b);
    assert Stands(b, t);
  }

  lemma {:induction false} StringsVerified(b: Build, t: nat, i: nat)
    requires Soundness(b).Sound? && t in b.made && b.made[t].Refs?
    requires forall k | 0 <= k < |b.made[t].targets| :: TextAt(b.made, b.made[t].targets[k])
    ensures t <= |b.data| && VerifyStrings(b.data, |b.data| - t, i, |b.made[t].targets|)
    decreases |b.made[t].targets| - i
  {
    var ts := b.made[t].targets;
    RefsRead(b, t, ts, i);
    if i < |ts| {
      assert TextAt(b.made, ts[i]);
      StringVerified(b, ts[i]);
      StringsVerified(b, t, i + 1);
    }
  }

  // ----- The bounds ---------------------------------------------------------------------------

  /** How deep the tables are nested, and how many tables a verifier sees. */
  datatype Cost = Cost(height: nat, count: nat)

  function Join(c: Cost, d: Cost): Cost {
    Cost(if c.height < d.height then d.height else c.height, c.count + d.count)
  }

  function TableCost(made: map<nat, Obj>, schema: Schema, o: nat, name: string): Cost
    decreases o, 3, 0
  {
    if o in made && made[o].Table? && name in schema then
      var c := MembersCost(made, schema, o, made[o].fields, schema[name]);
      Cost(c.height + 1, c.count + 1)
    else Cost(1, 1)
  }

  function MembersCost(
      made: map<nat, Obj>, schema: Schema, o: nat, fields: map<nat, Placed>, members: seq<Member>): Cost
    decreases o, 2, |members|
  {
    if members == [] then Cost(0, 0)
    else Join(MemberCost(made, schema, o, fields, members[0]), MembersCost(made, schema, o, fields, members[1..]))
  }

  function MemberCost(made: map<nat, Obj>, schema: Schema, o: nat, fields: map<nat, Placed>, m: Member): Cost
    decreases o, 1, 0
  {
    if m.field !in fields then Cost(0, 0)
    else
      match (m.kind, fields[m.field].field)
      case (Child(name), Ref(t)) => if t < o then TableCost(made, schema, t, name) else Cost(0, 0)
      case (Children(name), Ref(t)) =>
        if t in made && made[t].Refs? then TablesCost(made, schema, o, made[t].targets, name) else Cost(0, 0)
      case _ => Cost(0, 0)
  }

  function TablesCost(made: map<nat, Obj>, schema: Schema, o: nat, ts: seq<nat>, name: string): Cost
    decreases o, 0, |ts|
  {
    if ts == [] then Cost(0, 0)
    else
      Join(
        if ts[0] < o then TableCost(made, schema, ts[0], name) else Cost(0, 0),
        TablesCost(made, schema, o, ts[1..], name))
  }

  /** What a verifier that has seen some tables at some depth says of tables of that cost. */
  function Allowed(c: Cost, depth: nat, tables: nat, max: Bounds): Option<nat> {
    if depth + c.height <= max.maxDepth && tables + c.count <= max.maxTables then Some(tables + c.count) else None
  }

  lemma AllowedJoin(c: Cost, d: Cost, depth: nat, tables: nat, max: Bounds)
    requires depth <= max.maxDepth
    ensures Allowed(Join(c, d), depth, tables, max)
      == match Allowed(c, depth, tables, max) { case None => None case Some(t) => Allowed(d, depth, t, max) }
  {
  }

  /** What the builder has made of tables is accepted, if and only if it is within the bounds. */
  lemma {:induction false} TableVerified(
    b: Build, schema: Schema, o: nat, name: string, depth: nat, tables: nat, max: Bounds)
    requires Soundness(b).Sound? && TypedTable(b.made, schema, o, name)
    requires depth <= max.maxDepth && tables <= max.maxTables
    ensures o <= |b.data|
    ensures VerifyTable(b.data, |b.data| - o, name, schema, depth, tables, max)
      == Allowed(TableCost(b.made, schema, o, name), depth, tables, max)
    decreases o, 3, 0
  {
    TableInRange(b, o);
    if depth + 1 <= max.maxDepth && tables + 1 <= max.maxTables {
      MembersVerified(b, schema, o, schema[name], depth + 1, tables + 1, max);
    }
  }

  lemma TableInRange(b: Build, o: nat)
    requires Soundness(b).Sound? && o in b.made && b.made[o].Table?
    ensures 4 <= o <= |b.data|
    ensures var p := |b.data| - o; var vtable := VTableOf(b.data, p);
      InRange(b.data, p, 4) && InRange(b.data, vtable, 2) && InRange(b.data, vtable, Read(b.data, vtable, 2))
  {
    Clauses(b);
    assert Stands(b, o);
    var t := b.made[o];
    SlotReads(b.data, o, t.vtable, t.length, t.slots, t.fields, 4);
  }

  predicate TypedMembers(
    made: map<nat, Obj>, schema: Schema, o: nat, fields: map<nat, Placed>, members: seq<Member>)
  {
    forall i {:trigger members[i]} | 0 <= i < |members| :: TypedMember(made, schema, o, fields, members[i])
  }

  lemma MembersTyped(made: map<nat, Obj>, schema: Schema, o: nat, fields: map<nat, Placed>, members: seq<Member>)
    requires TypedMembers(made, schema, o, fields, members) && members != []
    ensures TypedMember(made, schema, o, fields, members[0])
    ensures TypedMembers(made, schema, o, fields, members[1..])
  {
  }

  lemma {:induction false} MembersVerified(
    b: Build, schema: Schema, o: nat, members: seq<Member>, depth: nat, tables: nat, max: Bounds)
    requires Soundness(b).Sound? && o in b.made && b.made[o].Table? && o <= |b.data|
    requires TypedMembers(b.made, schema, o, b.made[o].fields, members)
    requires depth <= max.maxDepth && tables <= max.maxTables
    ensures VerifyMembers(b.data, |b.data| - o, members, schema, depth, tables, max)
      == Allowed(MembersCost(b.made, schema, o, b.made[o].fields, members), depth, tables, max)
    decreases o, 2, |members|
  {
    if members != [] {
      MembersTyped(b.made, schema, o, b.made[o].fields, members);
      MemberVerified(b, schema, o, members[0], depth, tables, max);
      var c := MemberCost(b.made, schema, o, b.made[o].fields, members[0]);
      var t := Allowed(c, depth, tables, max);
      AllowedJoin(c, MembersCost(b.made, schema, o, b.made[o].fields, members[1..]), depth, tables, max);
      if t.Some? {
        MembersVerified(b, schema, o, members[1..], depth, t.value, max);
      }
    }
  }

  lemma {:induction false} MemberVerified(
    b: Build, schema: Schema, o: nat, m: Member, depth: nat, tables: nat, max: Bounds)
    requires Soundness(b).Sound? && o in b.made && b.made[o].Table? && o <= |b.data|
    requires TypedMember(b.made, schema, o, b.made[o].fields, m)
    requires depth <= max.maxDepth && tables <= max.maxTables
    ensures VerifyMember(b.data, |b.data| - o, m, schema, depth, tables, max)
      == Allowed(MemberCost(b.made, schema, o, b.made[o].fields, m), depth, tables, max)
    decreases o, 1, 0
  {
    var fields := b.made[o].fields;
    if m.field !in fields {
      AbsentFieldReads(b, o, m.field, 1, 0);
    } else {
      FieldVerified(b, o, m.field, FieldSize(fields[m.field].field));
      match fields[m.field].field
      case Number(_, _) =>
      case Struct(_, _) =>
      case Ref(t) =>
        RefFieldReads(b, o, m.field, t);
        RefVerified(b, schema, o, m, t, depth, tables, max);
    }
  }

  lemma {:induction false} RefVerified(
    b: Build, schema: Schema, o: nat, m: Member, t: nat, depth: nat, tables: nat, max: Bounds)
    requires Soundness(b).Sound? && o in b.made && b.made[o].Table? && o <= |b.data|
    requires TypedMember(b.made, schema, o, b.made[o].fields, m)
    requires m.field in b.made[o].fields && b.made[o].fields[m.field].field == Ref(t)
    requires GetPointer(b.data, |b.data| - o, m.field) == Some(|b.data| - t)
      && VerifyField(b.data, |b.data| - o, m.field, 4)
    requires depth <= max.maxDepth && tables <= max.maxTables
    ensures VerifyMember(b.data, |b.data| - o, m, schema, depth, tables, max)
      == Allowed(MemberCost(b.made, schema, o, b.made[o].fields, m), depth, tables, max)
    decreases o, 0, 1, 1
  {
    match m.kind
    case Scalar(_) =>
    case Record(_) =>
    case Str => LeafVerified(b, schema, o, m, t, depth, tables, max);
    case Vector(_) => LeafVerified(b, schema, o, m, t, depth, tables, max);
    case Strs => LeafVerified(b, schema, o, m, t, depth, tables, max);
    case Child(name) => TableVerified(b, schema, t, name, depth, tables, max);
    case Children(name) => ChildrenVerified(b, schema, o, m, t, name, depth, tables, max);
  }

  lemma {:induction false} ChildrenVerified(
      b: Build, schema: Schema, o: nat, m: Member, t: nat, name: string, depth: nat, tables: nat, max: Bounds)
    requires Soundness(b).Sound? && o in b.made && b.made[o].Table? && o <= |b.data| && m.kind == Children(name)
    requires TypedMember(b.made, schema, o, b.made[o].fields, m)
    requires m.field in b.made[o].fields && b.made[o].fields[m.field].field == Ref(t)
    requires GetPointer(b.data, |b.data| - o, m.field) == Some(|b.data| - t)
    requires VerifyField(b.data, |b.data| - o, m.field, 4)
    requires depth <= max.maxDepth && tables <= max.maxTables
    ensures VerifyMember(b.data, |b.data| - o, m, schema, depth, tables, max)
      == Allowed(MemberCost(b.made, schema, o, b.made[o].fields, m), depth, tables, max)
    decreases o, 0, 1, 0, 0
  {
    RefsVerified(b, t);
    TablesVerified(b, schema, o, t, 0, name, depth, tables, max);
    assert b.made[t].targets[0..] == b.made[t].targets;
  }

  lemma LeafVerified(b: Build, schema: Schema, o: nat, m: Member, t: nat, depth: nat, tables: nat, max: Bounds)
    requires Soundness(b).Sound? && o in b.made && b.made[o].Table? && o <= |b.data|
    requires TypedMember(b.made, schema, o, b.made[o].fields, m)
    requires m.field in b.made[o].fields && b.made[o].fields[m.field].field == Ref(t)
    requires GetPointer(b.data, |b.data| - o, m.field) == Some(|b.data| - t)
      && VerifyField(b.data, |b.data| - o, m.field, 4)
    requires depth <= max.maxDepth && (m.kind.Str? || m.kind.Vector? || m.kind.Strs?)
    ensures VerifyMember(b.data, |b.data| - o, m, schema, depth, tables, max) == Some(tables)
  {
    match m.kind
    case Str => StringVerified(b, t);
    case Vector(n) =>
      if b.made[t].Numbers? {
        NumbersVerified(b, t, n);
      } else {
        StructsVerified(b, t, n);
      }
    case Strs =>
      RefsVerified(b, t);
      StringsVerified(b, t, 0);
  }

  lemma {:induction false} TablesVerified(
    b: Build, schema: Schema, o: nat, t: nat, i: nat, name: string, depth: nat, tables: nat, max: Bounds)
    requires Soundness(b).Sound? && t in b.made && b.made[t].Refs? && i <= |b.made[t].targets| && t <= |b.data|
    requires forall k | 0 <= k < |b.made[t].targets| ::
      b.made[t].targets[k] < o && TypedTable(b.made, schema, b.made[t].targets[k], name)
    requires depth <= max.maxDepth && tables <= max.maxTables
    ensures VerifyTables(b.data, |b.data| - t, i, |b.made[t].targets|, name, schema, depth, tables, max)
      == Allowed(TablesCost(b.made, schema, o, b.made[t].targets[i..], name), depth, tables, max)
    decreases o, 0, 0, |b.made[t].targets| - i
  {
    var ts := b.made[t].targets;
    if i < |ts| {
      RefsRead(b, t, ts, i);
      assert ts[i..][1..] == ts[i + 1..];
      TableVerified(b, schema, ts[i], name, depth, tables, max);
      var c := TableCost(b.made, schema, ts[i], name);
      var seen := Allowed(c, depth, tables, max);
      AllowedJoin(c, TablesCost(b.made, schema, o, ts[i + 1..], name), depth, tables, max);
      if seen.Some? {
        TablesVerified(b, schema, o, t, i + 1, name, depth, seen.value, max);
      }
    }
  }

  /** A finished buffer is accepted, if and only if its tables are at most 64 deep and at most a million. */
  lemma BufferVerified(b: Build, root: nat, identifier: seq<Byte>, schema: Schema, name: string)
    requires Soundness(b).Sound? && root <= |b.data| && TypedTable(b.made, schema, root, name) && b.minalign > 0
    requires |identifier| == 0 || |identifier| == 4
    requires |Finished(b, root, identifier).data| < MAX_SIZE
    ensures var c := TableCost(b.made, schema, root, name);
      VerifyBuffer(Finished(b, root, identifier).data, name, schema) <==> c.height <= 64 && c.count <= 1_000_000
  {
    RootReads(b, root, identifier);
    FinishedVerified(Finished(b, root, identifier), root, schema, name);
  }

  lemma FinishedVerified(f: Build, root: nat, schema: Schema, name: string)
    requires Soundness(f).Sound? && TypedTable(f.made, schema, root, name) && |f.data| >= 4 && root <= |f.data|
    requires GetRoot(f.data) == |f.data| - root
    ensures var c := TableCost(f.made, schema, root, name);
      VerifyBuffer(f.data, name, schema) <==> c.height <= 64 && c.count <= 1_000_000
  {
    TableVerified(f, schema, root, name, 0, 0, Bounds(64, 1_000_000));
  }
}
