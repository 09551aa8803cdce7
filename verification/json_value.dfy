/** The values of jsoncpp/jsoncpp/jsoncpp.cpp and the text that FastWriter makes of them. A character of a
    string is a byte. */
module JsonValue {
  /** A value; a real number is the text it was read from. The members of an object are those of its map,
      in the order of their names. */
  datatype Value =
    | Null
    | Bool(b: bool)
    | Int(i: int)
    | UInt(u: nat)
    | Real(text: string)
    | Str(s: string)
    | Arr(items: seq<Value>)
    | Obj(members: seq<Member>)

  datatype Member = Member(name: string, value: Value)

  const MAX_INT: nat := 0x7fff_ffff
  const MAX_LARGEST_INT: nat := 0x7fff_ffff_ffff_ffff
  const MAX_LARGEST_UINT: nat := 0xffff_ffff_ffff_ffff

  /** The order of keys: that of their bytes, and then of their lengths. */
  predicate Less(a: string, b: string) {
    if b == "" then false
    else if a == "" then true
    else a[0] < b[0] || (a[0] == b[0] && Less(a[1..], b[1..]))
  }

  predicate Ascending(members: seq<Member>) {
    forall i, j :: 0 <= i < j < |members| ==> Less(members[i].name, members[j].name)
  }

  /** A value that has no reals, and whose numbers have 64 bits. */
  predicate Good(v: Value) {
    match v
    case Null => true
    case Bool(_) => true
    case Int(i) => -(MAX_LARGEST_INT as int) - 1 <= i <= MAX_LARGEST_INT
    case UInt(u) => u <= MAX_LARGEST_UINT
    case Real(_) => false
    case Str(_) => true
    case Arr(items) => forall i :: 0 <= i < |items| ==> Good(items[i])
    case Obj(members) => Ascending(members) && forall i :: 0 <= i < |members| ==> Good(members[i].value)
  }

  // ----- Numbers ------------------------------------------------------------------------------

  predicate IsDigit(c: char) {
    '0' <= c <= '9'
  }

  function DigitOf(c: char): nat
    requires IsDigit(c)
  {
    c as int - '0' as int
  }

  function Digit(d: nat): (c: char)
    requires d < 10
    ensures IsDigit(c) && DigitOf(c) == d
  {
    (d + '0' as int) as char
  }

  /** The decimal digits of a number. */
  function Digits(n: nat): (s: string)
    ensures s != ""
  {
    if n < 10 then [Digit(n)] else Digits(n / 10) + [Digit(n % 10)]
  }

  predicate AllDigits(s: string) {
    forall i | 0 <= i < |s| :: IsDigit(s[i])
  }

  /** The number that digits stand for. */
  function DigitsValue(s: string): nat
    requires AllDigits(s)
  {
    if s == "" then 0 else 10 * DigitsValue(s[..|s| - 1]) + DigitOf(s[|s| - 1])
  }

  lemma {:induction false} DigitsBack(n: nat)
    ensures AllDigits(Digits(n)) && DigitsValue(Digits(n)) == n
  {
    if n >= 10 {
      DigitsBack(n / 10);
      assert Digits(n)[..|Digits(n)| - 1] == Digits(n / 10);
    } else {
      assert Digits(n)[..0] == "";
    }
  }

  /** valueToString, of any integer. */
  function NumberText(n: int): (s: string)
    ensures s != ""
  {
    if n < 0 then "-" + Digits(-n) else Digits(n)
  }

  // ----- Strings ------------------------------------------------------------------------------

  /** An upper-case hexadecimal digit. */
  function Hex(d: nat): char
    requires d < 16
  {
    if d < 10 then (d + '0' as int) as char else (d - 10 + 'A' as int) as char
  }

  predicate IsControl(c: char) {
    c < 32 as char
  }

  /** What a character becomes in a quoted string. */
  function Escape(c: char): (s: string)
    ensures s != ""
  {
    if c == '"' then "\\\""
    else if c == '\\' then "\\\\"
    else if c == 8 as char then "\\b"
    else if c == 12 as char then "\\f"
    else if c == '\n' then "\\n"
    else if c == '\r' then "\\r"
    else if c == '\t' then "\\t"
    else if IsControl(c) then "\\u00" + [Hex(c as int / 16), Hex(c as int % 16)]
    else [c]
  }

  function Escaped(s: string): string {
    if s == "" then "" else Escape(s[0]) + Escaped(s[1..])
  }

  /** valueToQuotedStringN */
  function Quote(s: string): string {
    "\"" + Escaped(s) + "\""
  }

  // ----- Values -------------------------------------------------------------------------------

  /** FastWriter::writeValue */
  function Text(v: Value): string {
    match v
    case Null => "null"
    case Bool(b) => if b then "true" else "false"
    case Int(i) => NumberText(i)
    case UInt(u) => NumberText(u)
    case Real(text) => text
    case Str(s) => Quote(s)
    case Arr(items) => "[" + ItemsText(items) + "]"
    case Obj(members) => "{" + MembersText(members) + "}"
  }

  function ItemsText(items: seq<Value>): string {
    if items == [] then ""
    else if |items| == 1 then Text(items[0])
    else Text(items[0]) + "," + ItemsText(items[1..])
  }

  function MemberText(m: Member): string {
    Quote(m.name) + ":" + Text(m.value)
  }

  function MembersText(members: seq<Member>): string {
    if members == [] then ""
    else if |members| == 1 then MemberText(members[0])
    else MemberText(members[0]) + "," + MembersText(members[1..])
  }

  /** FastWriter::write */
  function Document(v: Value): string {
    Text(v) + "\n"
  }

  // ----- What reading makes of a value --------------------------------------------------------

  /** The kind that decodeNumber gives an integer. */
  function Tagged(n: int): Value {
    if n <= MAX_INT then Int(n) else UInt(n)
  }

  function Retagged(v: Value): Value {
    match v
    case Int(i) => Tagged(i)
    case UInt(u) => Tagged(u)
    case Arr(items) => Arr(RetaggedItems(items))
    case Obj(members) => Obj(RetaggedMembers(members))
    case _ => v
  }

  function RetaggedItems(items: seq<Value>): (r: seq<Value>)
    ensures |r| == |items|
  {
    if items == [] then [] else [Retagged(items[0])] + RetaggedItems(items[1..])
  }

  function RetaggedMembers(members: seq<Member>): (r: seq<Member>)
    ensures |r| == |members|
  {
    if members == [] then []
    else [Member(members[0].name, Retagged(members[0].value))] + RetaggedMembers(members[1..])
  }

  /** How deep a value is nested. */
  function Height(v: Value): (h: nat)
    ensures h >= 1
  {
    match v
    case Arr(items) => 1 + ItemsHeight(items)
    case Obj(members) => 1 + MembersHeight(members)
    case _ => 1
  }

  function ItemsHeight(items: seq<Value>): nat {
    if items == [] then 0
    else if Height(items[0]) < ItemsHeight(items[1..]) then ItemsHeight(items[1..])
    else Height(items[0])
  }

  function MembersHeight(members: seq<Member>): nat {
    if members == [] then 0
    else if Height(members[0].value) < MembersHeight(members[1..]) then MembersHeight(members[1..])
    else Height(members[0].value)
  }

  /** Retagging changes nothing but the kind of numbers: the text stays the same. */
  lemma {:induction false} RetaggedText(v: Value)
    requires Good(v)
    ensures Text(Retagged(v)) == Text(v)
  {
    match v
    case Null =>
    case Bool(_) =>
    case Int(_) =>
    case UInt(_) =>
    case Str(_) =>
    case Arr(items) => RetaggedItemsText(items);
    case Obj(members) => RetaggedMembersText(members);
  }

  lemma {:induction false} RetaggedItemsText(items: seq<Value>)
    requires forall i :: 0 <= i < |items| ==> Good(items[i])
    ensures ItemsText(RetaggedItems(items)) == ItemsText(items)
  {
    if items != [] {
      RetaggedText(items[0]);
      RetaggedItemsText(items[1..]);
      assert RetaggedItems(items)[1..] == RetaggedItems(items[1..]);
    }
  }

  lemma {:induction false} RetaggedMembersText(members: seq<Member>)
    requires forall i :: 0 <= i < |members| ==> Good(members[i].value)
    ensures MembersText(RetaggedMembers(members)) == MembersText(members)
  {
    if members != [] {
      RetaggedText(members[0].value);
      RetaggedMembersText(members[1..]);
      assert RetaggedMembers(members)[1..] == RetaggedMembers(members[1..]);
    }
  }
}
