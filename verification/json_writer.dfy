/** FastWriter of jsoncpp/jsoncpp/jsoncpp.cpp, with its default settings. */
module JsonWriter {
  import opened JsonValue

  /** uintToStringBufferSize */
  const BUFFER_SIZE: nat := 25

  lemma {:induction false} DigitsLength(n: nat, bound: nat, k: nat)
    requires n < bound && bound == Power(k) && k > 0
    ensures |Digits(n)| <= k
    decreases k
  {
    if n >= 10 {
      DigitsLength(n / 10, Power(k - 1), k - 1);
    }
  }

  function Power(k: nat): (p: nat)
    ensures p > 0
  {
    if k == 0 then 1 else 10 * Power(k - 1)
  }

  /** uintToString: the digits, from the last to the first. */
  method UintToString(value: nat) returns (s: string)
    ensures s == Digits(value)
  {
    s := [Digit(value % 10)];
    var v: nat := value / 10;
    while v != 0
      invariant Digits(value) == (if v == 0 then s else Digits(v) + s)
      decreases v
    {
      ghost var last := [Digit(v % 10)];
      assert Digits(v) + s == (if v < 10 then last + s else Digits(v / 10) + (last + s));
      s := [Digit(v % 10)] + s;
      v := v / 10;
    }
  }

  /** valueToString, of a signed integer; the text fits the buffer. */
  method SignedToString(value: int) returns (s: string)
    requires -(MAX_LARGEST_INT as int) - 1 <= value <= MAX_LARGEST_INT
    ensures s == NumberText(value) && |s| + 1 <= BUFFER_SIZE
  {
    if value == -(MAX_LARGEST_INT as int) - 1 {
      s := UintToString(MAX_LARGEST_INT + 1);
      s := "-" + s;
    } else if value < 0 {
      s := UintToString(-value);
      s := "-" + s;
    } else {
      s := UintToString(value);
    }
    TextFits(value);
  }

  /** valueToString, of an unsigned integer. */
  method UnsignedToString(value: nat) returns (s: string)
    requires value <= MAX_LARGEST_UINT
    ensures s == NumberText(value) && |s| + 1 <= BUFFER_SIZE
  {
    s := UintToString(value);
    TextFits(value);
  }

  lemma TextFits(value: int)
    requires -(MAX_LARGEST_INT as int) - 1 <= value <= MAX_LARGEST_UINT
    ensures |NumberText(value)| + 1 <= BUFFER_SIZE
  {
    assert Power(10) == 100_0000_0000 && Power(20) == 1_0000_0000_0000_0000_0000;
    DigitsLength(if value < 0 then -value else value, Power(20), 20);
  }

  /** Whether a string has characters that are to be escaped. */
  method NeedsEscapes(s: string) returns (needs: bool)
    ensures needs <==> exists i :: 0 <= i < |s| && Escape(s[i]) != [s[i]]
  {
    var i := 0;
    while i < |s|
      invariant 0 <= i <= |s| && forall k :: 0 <= k < i ==> Escape(s[k]) == [s[k]]
    {
      var c := s[i];
      if c == '"' || c == '\\' || c == 8 as char || c == 12 as char || c == '\n' || c == '\r' || c == '\t'
        || IsControl(c) {
        return true;
      }
      i := i + 1;
    }
    return false;
  }

  lemma {:induction false} NothingEscaped(s: string)
    requires forall i :: 0 <= i < |s| ==> Escape(s[i]) == [s[i]]
    ensures Escaped(s) == s
  {
    if s != "" {
      NothingEscaped(s[1..]);
      assert Escape(s[0]) == [s[0]];
      assert s == [s[0]] + s[1..];
    }
  }

  /** valueToQuotedStringN; a string without special characters is copied. */
  method ValueToQuotedString(s: string) returns (r: string)
    ensures r == Quote(s)
  {
    var needs := NeedsEscapes(s);
    if !needs {
      NothingEscaped(s);
      return "\"" + s + "\"";
    }
    r := "\"";
    var i := 0;
    assert s[0..] == s;
    while i < |s|
      invariant 0 <= i <= |s| && r + Escaped(s[i..]) == "\"" + Escaped(s)
    {
      assert s[i..][1..] == s[i + 1..];
      assert r + Escape(s[i]) + Escaped(s[i + 1..]) == r + Escaped(s[i..]);
      r := r + Escape(s[i]);
      i := i + 1;
    }
    assert r + "" == r;
    r := r + "\"";
  }

  lemma Appended(before: string, comma: string, piece: string, rest: string)
    ensures before + comma + piece + rest == before + (comma + piece + rest)
    ensures comma == "" ==> before + comma == before
  {
  }

  lemma Bracketed(before: string, open: string, inner: string, close: string)
    ensures before + open + inner + close == before + (open + inner + close)
    ensures before + open + inner + "" == before + open + inner
  {
  }

  class FastWriter {
    var document: string

    constructor ()
      ensures document == ""
    {
      document := "";
    }

    /** write */
    method Write(root: Value) returns (text: string)
      requires Good(root)
      modifies this
      ensures text == document == Document(root)
    {
      document := "";
      WriteValue(root);
      assert "" + Text(root) == Text(root);
      document := document + "\n";
      text := document;
    }

    method WriteValue(v: Value)
      requires Good(v)
      modifies this
      ensures document == old(document) + Text(v)
      decreases v
    {
      match v
      case Null => document := document + "null";
      case Bool(b) => document := document + (if b then "true" else "false");
      case Int(i) =>
        var s := SignedToString(i);
        document := document + s;
      case UInt(u) =>
        var s := UnsignedToString(u);
        document := document + s;
      case Str(s) =>
        var q := ValueToQuotedString(s);
        document := document + q;
      case Arr(items) => WriteArray(items);
      case Obj(members) => WriteObject(members);
    }

    /** What is still to be written of an array. */
    static function ItemsLeft(items: seq<Value>, i: nat): string
      requires i <= |items|
    {
      if i == |items| then "" else if i == 0 then ItemsText(items) else "," + ItemsText(items[i..])
    }

    static lemma ItemsLeftStep(items: seq<Value>, i: nat)
      requires i < |items|
      ensures ItemsLeft(items, i) == (if i > 0 then "," else "") + Text(items[i]) + ItemsLeft(items, i + 1)
    {
      assert items[i..][1..] == items[i + 1..] && items[0..] == items;
    }

    method WriteArray(items: seq<Value>)
      requires forall i :: 0 <= i < |items| ==> Good(items[i])
      modifies this
      ensures document == old(document) + "[" + ItemsText(items) + "]"
      ensures document == old(document) + Text(Arr(items))
      decreases items
    {
      ghost var start := document + "[";
      document := document + "[";
      var i: nat := 0;
      assert items == [] ==> ItemsText(items) == "";
      while i < |items|
        invariant i <= |items| && document + ItemsLeft(items, i) == start + ItemsText(items)
      {
        ItemsLeftStep(items, i);
        ghost var before := document;
        if i > 0 {
          document := document + ",";
        }
        WriteValue(items[i]);
        Appended(before, if i > 0 then "," else "", Text(items[i]), ItemsLeft(items, i + 1));
        i := i + 1;
      }
      document := document + "]";
      Bracketed(old(document), "[", ItemsText(items), "]");
    }

    /** What is still to be written of an object. */
    static function MembersLeft(members: seq<Member>, i: nat): string
      requires i <= |members|
    {
      if i == |members| then "" else if i == 0 then MembersText(members) else "," + MembersText(members[i..])
    }

    static lemma MembersLeftStep(members: seq<Member>, i: nat)
      requires i < |members|
      ensures MembersLeft(members, i)
        == (if i > 0 then "," else "") + MemberText(members[i]) + MembersLeft(members, i + 1)
    {
      assert members[i..][1..] == members[i + 1..] && members[0..] == members;
    }

    method WriteObject(members: seq<Member>)
      requires forall i :: 0 <= i < |members| ==> Good(members[i].value)
      modifies this
      ensures document == old(document) + "{" + MembersText(members) + "}"
      ensures document == old(document) + Text(Obj(members))
      decreases members
    {
      ghost var start := document + "{";
      document := document + "{";
      var i: nat := 0;
      assert members == [] ==> MembersText(members) == "";
      while i < |members|
        invariant i <= |members| && document + MembersLeft(members, i) == start + MembersText(members)
      {
        MembersLeftStep(members, i);
        ghost var before := document;
        if i > 0 {
          document := document + ",";
        }
        WriteMember(members[i]);
        Appended(before, if i > 0 then "," else "", MemberText(members[i]), MembersLeft(members, i + 1));
        i := i + 1;
      }
      document := document + "}";
      Bracketed(old(document), "{", MembersText(members), "}");
    }

    method WriteMember(m: Member)
      requires Good(m.value)
      modifies this
      ensures document == old(document) + MemberText(m)
      decreases m
    {
      var q := ValueToQuotedString(m.name);
      document := document + q;
      document := document + ":";
      WriteValue(m.value);
      Bracketed(old(document), q, ":", Text(m.value));
    }
  }
}
