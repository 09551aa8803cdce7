/** Reading back what FastWriter has written. */
module JsonRoundTrip {
  import opened Sequences
  import opened JsonValue
  import opened JsonGrammar
  import opened Verdicts

  // ----- Names --------------------------------------------------------------------------------

  lemma {:induction false} LessIsStrict(a: string, b: string)
    requires Less(a, b)
    ensures a != b && !Less(b, a)
    decreases |a|
  {
    if a != "" && a[0] == b[0] {
      LessIsStrict(a[1..], b[1..]);
    }
  }

  /** A member with a name after all the others goes last. */
  lemma {:induction false} AssignedLast(members: seq<Member>, name: string, v: Value)
    requires forall i | 0 <= i < |members| :: Less(members[i].name, name)
    ensures Assigned(members, name, v) == members + [Member(name, v)]
  {
    if members != [] {
      LessIsStrict(members[0].name, name);
      AssignedLast(members[1..], name, v);
    }
  }

  // ----- Strings ------------------------------------------------------------------------------

  /** An escaped character does not end a string. */
  lemma EscapeSkipped(c: char, rest: string)
    ensures AfterString(Escape(c) + rest) == AfterString(rest)
  {
    var e := Escape(c);
    var s := e + rest;
    if |e| == 1 {
      assert s[1..] == rest;
    } else if |e| == 2 {
      assert s[2..] == rest;
    } else {
      assert |e| == 6 && e[..4] == "\\u00";
      PlainSkipped(s[2..], 4);
      assert s[2..][4..] == rest;
    }
  }

  /** Neither do characters that are no quotes or backslashes. */
  lemma {:induction false} PlainSkipped(s: string, n: nat)
    requires n <= |s| && forall i | 0 <= i < n :: s[i] != '"' && s[i] != '\\'
    ensures AfterString(s) == AfterString(s[n..])
  {
    if n > 0 {
      PlainSkipped(s[1..], n - 1);
      assert s[1..][n - 1..] == s[n..];
    }
  }

  lemma {:induction false} EscapedSkipped(s: string, rest: string)
    ensures AfterString(Escaped(s) + "\"" + rest) == Some(rest)
  {
    if s == "" {
      assert Escaped(s) + "\"" + rest == "\"" + rest;
    } else {
      EscapedSkipped(s[1..], rest);
      EscapeSkipped(s[0], Escaped(s[1..]) + "\"" + rest);
      assert Escaped(s) + "\"" + rest == Escape(s[0]) + (Escaped(s[1..]) + "\"" + rest);
    }
  }

  lemma HexBack(d: nat)
    requires d < 16
    ensures HexValue(Hex(d)) == Some(d) && Hex(d) != '"' && Hex(d) != '\\'
  {
  }

  lemma PlainDecoded(c: char, rest: string)
    requires c != '"' && c != '\\'
    ensures DecodedString([c] + rest) == Prepended([c], DecodedString(rest))
  {
    assert ([c] + rest)[1..] == rest && ([c] + rest)[..1] == [c];
  }

  lemma PairDecoded(x: char, c: char, rest: string)
    requires Unescaped(x) == Some(c)
    ensures DecodedString(['\\', x] + rest) == Prepended([c], DecodedString(rest))
  {
    assert (['\\', x] + rest)[2..] == rest;
  }

  lemma ControlDecoded(c: char, rest: string)
    requires IsControl(c)
    ensures DecodedString("\\u00" + [Hex(c as int / 16), Hex(c as int % 16)] + rest)
      == Prepended([c], DecodedString(rest))
  {
    var high, low := c as int / 16, c as int % 16;
    var s := "\\u00" + [Hex(high), Hex(low)] + rest;
    HexBack(high);
    HexBack(low);
    HexBack(0);
    assert s[2..][4..] == rest && s[2] == '0' && s[3] == '0' && s[4] == Hex(high) && s[5] == Hex(low);
    assert Hex4(s[2..]) == Some(c as int);
  }

  /** Decoding undoes an escape. */
  lemma EscapeDecoded(c: char, rest: string)
    ensures DecodedString(Escape(c) + rest) == Prepended([c], DecodedString(rest))
  {
    var e := Escape(c);
    if |e| == 1 {
      PlainDecoded(c, rest);
    } else if |e| == 2 {
      PairDecoded(e[1], c, rest);
      assert e == ['\\', e[1]];
    } else {
      ControlDecoded(c, rest);
    }
  }

  lemma {:induction false} EscapedDecoded(s: string)
    ensures DecodedString(Escaped(s)) == Some(s)
  {
    if s != "" {
      EscapedDecoded(s[1..]);
      EscapeDecoded(s[0], Escaped(s[1..]));
      assert [s[0]] + s[1..] == s;
    }
  }

  /** A quoted string is one token, and decoding it gives the string, whatever bytes it has. */
  lemma QuoteReads(s: string, rest: string)
    ensures NextToken(Quote(s) + rest) == Token(StringToken, Quote(s), rest)
    ensures DecodedString(Inside(Quote(s))) == Some(s)
  {
    EscapedSkipped(s, rest);
    QuoteIsToken(Quote(s), rest);
    assert (Quote(s) + rest)[1..] == Escaped(s) + "\"" + rest;
    EscapedDecoded(s);
    assert Inside(Quote(s)) == Escaped(s);
  }

  lemma QuoteIsToken(q: string, rest: string)
    requires q != "" && q[0] == '"'
    ensures AfterString((q + rest)[1..]) == Some(rest) ==> NextToken(q + rest) == Token(StringToken, q, rest)
  {
    assert (q + rest)[..|q + rest| - |rest|] == q;
  }

  // ----- Numbers ------------------------------------------------------------------------------

  /** What comes after a number so that it ends there. */
  predicate Delimited(rest: string) {
    rest == "" || !(IsDigit(rest[0]) || rest[0] == '.' || rest[0] == 'e' || rest[0] == 'E')
  }

  lemma {:induction false} DigitsSkipped(d: string, rest: string)
    requires AllDigits(d) && Delimited(rest)
    ensures AfterDigits(d + rest) == rest
  {
    if d == "" {
      assert d + rest == rest;
    } else {
      DigitsSkipped(d[1..], rest);
      assert (d + rest)[1..] == d[1..] + rest;
    }
  }

  lemma NumberEnds(d: string, rest: string)
    requires AllDigits(d) && Delimited(rest)
    ensures AfterNumber(d + rest) == rest
  {
    DigitsSkipped(d, rest);
  }

  lemma NumberIsToken(start: char, d: string, rest: string)
    requires (IsDigit(start) || start == '-') && AllDigits(d) && Delimited(rest)
    ensures NextToken([start] + d + rest) == Token(NumberToken, [start] + d, rest)
  {
    NumberEnds(d, rest);
    NumberIsWhole([start] + d, rest);
    assert ([start] + d + rest)[1..] == d + rest;
  }

  lemma NumberIsWhole(n: string, rest: string)
    requires n != "" && (IsDigit(n[0]) || n[0] == '-')
    ensures AfterNumber((n + rest)[1..]) == rest ==> NextToken(n + rest) == Token(NumberToken, n, rest)
  {
    assert (n + rest)[..|n + rest| - |rest|] == n;
  }

  /** The text of an integer of 64 bits is one token, and decoding it gives the integer. */
  lemma NumberReads(n: int, rest: string)
    requires Delimited(rest) && -(MAX_LARGEST_INT as int) - 1 <= n <= MAX_LARGEST_UINT
    ensures NextToken(NumberText(n) + rest) == Token(NumberToken, NumberText(n), rest)
    ensures DecodedNumber(NumberText(n)) == Tagged(n)
  {
    var m: int := if n < 0 then -n else n;
    var d := Digits(m);
    DigitsBack(m);
    if n < 0 {
      NumberIsToken('-', d, rest);
      assert NumberText(n)[1..] == d;
    } else {
      NumberIsToken(d[0], d[1..], rest);
      assert d == [d[0]] + d[1..];
    }
  }

  // ----- Values -------------------------------------------------------------------------------

  lemma TextStarts(v: Value)
    requires Good(v)
    ensures Text(v) != "" && !IsSpace(Text(v)[0]) && Text(v)[0] != ']'
  {
    match v
    case Int(i) => NumberStarts(i);
    case UInt(u) => NumberStarts(u);
    case _ =>
  }

  lemma NumberStarts(n: int)
    ensures IsDigit(NumberText(n)[0]) || NumberText(n)[0] == '-'
  {
    DigitsBack(if n < 0 then -n else n);
  }

  function Within<T>(height: nat, depth: nat, v: T, rest: string): Outcome<T> {
    if depth + height <= STACK_LIMIT then Got(v, rest) else Thrown
  }

  /** The text of a value is read back, up to the kind of its numbers, exactly if it is not nested too deep. */
  lemma {:induction false} ValueReads(v: Value, rest: string, depth: nat)
    requires Good(v) && Delimited(rest) && depth <= STACK_LIMIT
    ensures ReadValue(Text(v) + rest, depth) == Within(Height(v), depth, Retagged(v), rest)
    decreases v
  {
    if depth < STACK_LIMIT {
      match v
      case Null => LeafReads(v, rest, depth);
      case Bool(_) => LeafReads(v, rest, depth);
      case Int(_) => LeafReads(v, rest, depth);
      case UInt(_) => LeafReads(v, rest, depth);
      case Str(_) => LeafReads(v, rest, depth);
      case Arr(items) => ArrayReads(items, rest, depth);
      case Obj(members) => ObjectReads(members, rest, depth);
    }
  }

  lemma LeafReads(v: Value, rest: string, depth: nat)
    requires Good(v) && !v.Arr? && !v.Obj? && Delimited(rest) && depth < STACK_LIMIT
    ensures ReadValue(Text(v) + rest, depth) == Got(Retagged(v), rest)
  {
    match v
    case Null => WordReads("null", Null, NullToken, rest, depth);
    case Bool(b) =>
      if b {
        WordReads("true", v, TrueToken, rest, depth);
      } else {
        WordReads("false", v, FalseToken, rest, depth);
      }
    case Int(i) => IntegerReads(i, rest, depth);
    case UInt(u) => IntegerReads(u, rest, depth);
    case Str(s) => StringReads(s, rest, depth);
  }

  lemma WordReads(word: string, v: Value, kind: Kind, rest: string, depth: nat)
    requires depth < STACK_LIMIT
    requires (word, v, kind) == ("null", Null, NullToken) || (word, v, kind) == ("true", Bool(true), TrueToken)
      || (word, v, kind) == ("false", Bool(false), FalseToken)
    ensures ReadValue(word + rest, depth) == Got(v, rest)
  {
    var s := word + rest;
    assert s[1..] == word[1..] + rest;
    assert s[1..][..|word| - 1] == word[1..] && s[1..][|word| - 1..] == rest;
    assert NextToken(s).kind == kind && NextToken(s).rest == rest;
  }

  lemma IntegerReads(n: int, rest: string, depth: nat)
    requires Delimited(rest) && -(MAX_LARGEST_INT as int) - 1 <= n <= MAX_LARGEST_UINT && depth < STACK_LIMIT
    ensures ReadValue(NumberText(n) + rest, depth) == Got(Tagged(n), rest)
  {
    NumberReads(n, rest);
  }

  lemma StringReads(s: string, rest: string, depth: nat)
    requires depth < STACK_LIMIT
    ensures ReadValue(Quote(s) + rest, depth) == Got(Str(s), rest)
  {
    QuoteReads(s, rest);
  }

  lemma ItemsStart(items: seq<Value>, inner: string)
    requires items != [] && Good(items[0]) && ItemsText(items) <= inner
    ensures inner != "" && SkipSpaces(inner) == inner && inner[0] != ']'
  {
    TextStarts(items[0]);
    assert inner[0] == ItemsText(items)[0] == Text(items[0])[0];
  }

  lemma ArrayOpens(inner: string, depth: nat)
    requires depth < STACK_LIMIT
    ensures ReadValue("[" + inner, depth) == ReadArray(inner, depth + 1)
  {
    assert NextToken("[" + inner) == Token(ArrayBegin, "[", inner);
  }

  lemma {:induction false} ArrayReads(items: seq<Value>, rest: string, depth: nat)
    requires (forall i :: 0 <= i < |items| ==> Good(items[i])) && depth < STACK_LIMIT
    ensures ReadValue("[" + ItemsText(items) + "]" + rest, depth)
      == Within(1 + ItemsHeight(items), depth, Arr(RetaggedItems(items)), rest)
    decreases items, 1
  {
    var inner := ItemsText(items) + ("]" + rest);
    Assoc4("[", ItemsText(items), "]", rest);
    ArrayOpens(inner, depth);
    BetweenReads(items, rest, depth + 1, inner, ReadArray(inner, depth + 1));
  }

  /** What is between the brackets. */
  lemma {:induction false} BetweenReads(items: seq<Value>, rest: string, depth: nat, inner: string, r: Outcome<Value>)
    requires (forall i :: 0 <= i < |items| ==> Good(items[i])) && depth <= STACK_LIMIT
    requires inner == ItemsText(items) + ("]" + rest) && r == ReadArray(inner, depth)
    ensures r == Within(ItemsHeight(items), depth, Arr(RetaggedItems(items)), rest)
    decreases items, 0, 1
  {
    if items == [] {
      assert inner == "]" + rest;
    } else {
      ItemsStart(items, inner);
      ItemsRead(items, [], rest, depth);
      assert [] + RetaggedItems(items) == RetaggedItems(items);
    }
  }

  lemma {:induction false} ItemsRead(items: seq<Value>, done: seq<Value>, rest: string, depth: nat)
    requires items != [] && (forall i :: 0 <= i < |items| ==> Good(items[i])) && depth <= STACK_LIMIT
    ensures ReadItems(ItemsText(items) + ("]" + rest), done, depth)
      == Within(ItemsHeight(items), depth, Arr(done + RetaggedItems(items)), rest)
    decreases items, 0, 0
  {
    var first := Text(items[0]);
    if |items| == 1 {
      var after := "]" + rest;
      ValueReads(items[0], after, depth);
      Ends("]", ArrayEnd, rest);
      assert RetaggedItems(items) == [Retagged(items[0])];
    } else {
      var more := ItemsText(items[1..]) + ("]" + rest);
      var after := "," + more;
      Assoc4(first, ",", ItemsText(items[1..]), "]" + rest);
      ValueReads(items[0], after, depth);
      Ends(",", Comma, more);
      ItemsRead(items[1..], done + [Retagged(items[0])], rest, depth);
      Assoc(done, [Retagged(items[0])], RetaggedItems(items[1..]));
    }
  }

  lemma ObjectOpens(inner: string, depth: nat)
    requires depth < STACK_LIMIT
    ensures ReadValue("{" + inner, depth) == ReadMembers(inner, [], "", depth + 1)
  {
    assert NextToken("{" + inner) == Token(ObjectBegin, "{", inner);
  }

  lemma ObjectCloses(rest: string, depth: nat)
    ensures ReadMembers("}" + rest, [], "", depth) == Got(Obj([]), rest)
  {
    assert NextToken("}" + rest) == Token(ObjectEnd, "}", rest);
  }

  lemma Braced(inner: string, rest: string, text: string)
    requires text == inner + ("}" + rest)
    ensures "{" + inner + "}" + rest == "{" + text
  {
    Assoc4("{", inner, "}", rest);
  }

  lemma {:induction false} ObjectReads(members: seq<Member>, rest: string, depth: nat)
    requires Ascending(members) && (forall i :: 0 <= i < |members| ==> Good(members[i].value)) && depth < STACK_LIMIT
    ensures ReadValue("{" + MembersText(members) + "}" + rest, depth)
      == Within(1 + MembersHeight(members), depth, Obj(RetaggedMembers(members)), rest)
    decreases members, 2
  {
    var inner := MembersText(members) + ("}" + rest);
    BracedReads(members, rest, depth, inner);
    Braced(MembersText(members), rest, inner);
  }

  lemma {:induction false} BracedReads(members: seq<Member>, rest: string, depth: nat, inner: string)
    requires Ascending(members) && (forall i :: 0 <= i < |members| ==> Good(members[i].value)) && depth < STACK_LIMIT
    requires inner == MembersText(members) + ("}" + rest)
    ensures ReadValue("{" + inner, depth)
      == Within(1 + MembersHeight(members), depth, Obj(RetaggedMembers(members)), rest)
    decreases members, 1
  {
    ObjectOpens(inner, depth);
    InnerReads(members, rest, depth + 1, inner, ReadMembers(inner, [], "", depth + 1));
  }

  /** What is between the braces. */
  lemma {:induction false} InnerReads(members: seq<Member>, rest: string, depth: nat, inner: string, r: Outcome<Value>)
    requires Ascending(members) && (forall i :: 0 <= i < |members| ==> Good(members[i].value)) && depth <= STACK_LIMIT
    requires inner == MembersText(members) + ("}" + rest) && r == ReadMembers(inner, [], "", depth)
    ensures r == Within(MembersHeight(members), depth, Obj(RetaggedMembers(members)), rest)
    decreases members, 0, 1
  {
    if members == [] {
      assert inner == "}" + rest;
      ObjectCloses(rest, depth);
    } else {
      FirstInOrder(members);
      MembersRead(members, [], "", rest, depth);
      assert [] + RetaggedMembers(members) == RetaggedMembers(members);
    }
  }

  lemma ColonReads(tail: string)
    ensures NextToken(":" + tail) == Token(Colon, ":", tail)
  {
  }

  /** Members whose names are in order, of which some have been read. */
  function InOrder(done: seq<Member>, members: seq<Member>): Verdict {
    if Ascending(done + members) then Sound else Broken
  }

  lemma FirstInOrder(members: seq<Member>)
    requires Ascending(members)
    ensures InOrder([], members).Sound?
  {
    assert [] + members == members;
  }

  lemma NextInOrder(done: seq<Member>, members: seq<Member>, v: Value)
    requires InOrder(done, members).Sound? && members != []
    ensures Assigned(done, members[0].name, v) == done + [Member(members[0].name, v)]
    ensures InOrder(done + [Member(members[0].name, v)], members[1..]).Sound?
  {
    var all, now := done + members, done + [Member(members[0].name, v)] + members[1..];
    assert all[|done|] == members[0];
    forall i | 0 <= i < |done| ensures Less(done[i].name, members[0].name) {
      assert all[i] == done[i];
    }
    AssignedLast(done, members[0].name, v);
    forall i | 0 <= i < |all| ensures now[i].name == all[i].name {
    }
    forall i, j | 0 <= i < j < |now| ensures Less(now[i].name, now[j].name) {
      assert Less(all[i].name, all[j].name);
    }
  }

  /** What is left to do when the value of a member has been read. */
  function AfterValue(v: Outcome<Value>, done: seq<Member>, name: string, depth: nat): Outcome<Value> {
    match v
    case Failed => Failed
    case Thrown => Thrown
    case Got(value, rest) =>
      var now := Assigned(done, name, value);
      var comma := NextToken(rest);
      if comma.kind == ObjectEnd then Got(Obj(now), comma.rest)
      else if comma.kind == Comma then ReadMembers(comma.rest, now, name, depth)
      else Failed
  }

  lemma MemberOpens(n: string, tail: string, done: seq<Member>, name: string, depth: nat)
    ensures ReadMembers(Quote(n) + ":" + tail, done, name, depth) == AfterValue(ReadValue(tail, depth), done, n, depth)
  {
    Assoc(Quote(n), ":", tail);
    QuoteReads(n, ":" + tail);
    ColonReads(tail);
  }

  /** Reading one member, and the token after it. */
  lemma {:induction false} MemberReads(
    m: Member, done: seq<Member>, name: string, after: string, depth: nat, close: bool, more: string, now: seq<Member>)
    requires Good(m.value) && Delimited(after) && depth <= STACK_LIMIT
    requires NextToken(after).kind == (if close then ObjectEnd else Comma) && NextToken(after).rest == more
    requires now == Assigned(done, m.name, Retagged(m.value))
    ensures ReadMembers(MemberText(m) + after, done, name, depth)
      == if depth + Height(m.value) > STACK_LIMIT then Thrown
         else if close then Got(Obj(now), more)
         else ReadMembers(more, now, m.name, depth)
    decreases m
  {
    var tail := Text(m.value) + after;
    Assoc4(Quote(m.name), ":", Text(m.value), after);
    MemberOpens(m.name, tail, done, name, depth);
    ValueReads(m.value, after, depth);
  }

  lemma {:induction false} MembersRead(members: seq<Member>, done: seq<Member>, name: string, rest: string, depth: nat)
    requires members != [] && (forall i :: 0 <= i < |members| ==> Good(members[i].value)) && depth <= STACK_LIMIT
    requires InOrder(done, members).Sound?
    ensures ReadMembers(MembersText(members) + ("}" + rest), done, name, depth)
      == Within(MembersHeight(members), depth, Obj(done + RetaggedMembers(members)), rest)
    decreases members, 0, 0
  {
    var m := members[0];
    var read := Member(m.name, Retagged(m.value));
    NextInOrder(done, members, read.value);
    if |members| == 1 {
      Ends("}", ObjectEnd, rest);
      MemberReads(m, done, name, "}" + rest, depth, true, rest, done + [read]);
      assert RetaggedMembers(members) == [read];
    } else {
      var more := MembersText(members[1..]) + ("}" + rest);
      Assoc4(MemberText(m), ",", MembersText(members[1..]), "}" + rest);
      Ends(",", Comma, more);
      MemberReads(m, done, name, "," + more, depth, false, more, done + [read]);
      MembersRead(members[1..], done + [read], m.name, rest, depth);
      Assoc(done, [read], RetaggedMembers(members[1..]));
    }
  }

  /** What can come after a member or an item. */
  lemma Ends(c: string, kind: Kind, rest: string)
    requires (c == "}" && kind == ObjectEnd) || (c == "]" && kind == ArrayEnd) || (c == "," && kind == Comma)
    ensures NextToken(c + rest) == Token(kind, c, rest) && Delimited(c + rest)
  {
  }

  /** Parsing what FastWriter has written gives the value back, up to the kind of its numbers, if it is nested
      at most as deep as the stack limit, and otherwise an exception. */
  lemma DocumentReads(v: Value)
    requires Good(v)
    ensures Parse(Document(v)) == if Height(v) <= STACK_LIMIT then Got(Retagged(v), "\n") else Thrown
  {
    ValueReads(v, "\n", 0);
  }

  /** And writing it again gives the same text. */
  lemma WrittenAgain(v: Value)
    requires Good(v) && Height(v) <= STACK_LIMIT
    ensures Parse(Document(v)).Got? && Document(Parse(Document(v)).value) == Document(v)
  {
    DocumentReads(v);
    RetaggedText(v);
  }

  // ----- Code points --------------------------------------------------------------------------

  predicate IsTail(c: char) {
    0x80 <= c as int <= 0xbf
  }

  /** The code point that one to four bytes stand for, by section 3 of RFC 3629. */
  function FromUtf8(s: string): Option<nat> {
    if |s| == 1 && s[0] as int <= 0x7f then Some(s[0] as int)
    else if |s| == 2 && 0xc0 <= s[0] as int <= 0xdf && IsTail(s[1]) then
      Some((s[0] as int - 0xc0) * 0x40 + (s[1] as int - 0x80))
    else if |s| == 3 && 0xe0 <= s[0] as int <= 0xef && IsTail(s[1]) && IsTail(s[2]) then
      Some(((s[0] as int - 0xe0) * 0x40 + (s[1] as int - 0x80)) * 0x40 + (s[2] as int - 0x80))
    else if |s| == 4 && 0xf0 <= s[0] as int <= 0xf7 && IsTail(s[1]) && IsTail(s[2]) && IsTail(s[3]) then
      Some((((s[0] as int - 0xf0) * 0x40 + (s[1] as int - 0x80)) * 0x40 + (s[2] as int - 0x80)) * 0x40
        + (s[3] as int - 0x80))
    else None
  }

  /** codePointToUTF8 writes the bytes that stand for the code point, and no more of them than needed. */
  lemma Utf8Back(cp: nat)
    requires cp <= 0x10_ffff
    ensures FromUtf8(Utf8(cp)) == Some(cp)
    ensures |Utf8(cp)| == if cp < 0x80 then 1 else if cp < 0x800 then 2 else if cp < 0x1_0000 then 3 else 4
  {
    assert cp / 0x1000 == cp / 0x40 / 0x40 && cp / 0x4_0000 == cp / 0x1000 / 0x40;
  }

  /** Four hexadecimal digits. */
  function HexText(u: nat): (s: string)
    requires u < 0x1_0000
    ensures |s| == 4
  {
    [Hex(u / 0x1000), Hex(u / 0x100 % 16), Hex(u / 16 % 16), Hex(u % 16)]
  }

  lemma HexTextBack(u: nat, rest: string)
    requires u < 0x1_0000
    ensures Hex4(HexText(u) + rest) == Some(u)
  {
    HexBack(u / 0x1000);
    HexBack(u / 0x100 % 16);
    HexBack(u / 16 % 16);
    HexBack(u % 16);
    assert u / 0x100 == u / 16 / 16 && u / 0x1000 == u / 16 / 16 / 16;
    var s := HexText(u) + rest;
    assert s[0] == Hex(u / 0x1000) && s[1] == Hex(u / 0x100 % 16) && s[2] == Hex(u / 16 % 16) && s[3] == Hex(u % 16);
  }

  /** An escape that is no high surrogate stands for itself. */
  lemma EscapeIsCodePoint(cp: nat, rest: string)
    requires cp < 0x1_0000 && !(0xd800 <= cp <= 0xdbff)
    ensures DecodedCodePoint(HexText(cp) + rest) == CodePoint(cp, rest)
  {
    HexTextBack(cp, rest);
    assert (HexText(cp) + rest)[4..] == rest;
  }

  /** The high surrogate with number a and the low one with number b stand for one code point. */
  lemma SurrogatesAreCodePoint(a: nat, b: nat, rest: string)
    requires a < 0x400 && b < 0x400
    ensures DecodedCodePoint(HexText(0xd800 + a) + ("\\u" + (HexText(0xdc00 + b) + rest)))
      == CodePoint(0x1_0000 + a * 0x400 + b, rest)
  {
    var high, low := 0xd800 + a, 0xdc00 + b;
    HexTextBack(high, "\\u" + (HexText(low) + rest));
    HexTextBack(low, rest);
    PairReads(HexText(high), HexText(low), a, b, rest);
  }

  lemma PairReads(first: string, second: string, a: nat, b: nat, rest: string)
    requires |first| == 4 && |second| == 4 && a < 0x400 && b < 0x400
    requires Hex4(first + ("\\u" + (second + rest))) == Some(0xd800 + a) && Hex4(second + rest) == Some(0xdc00 + b)
    ensures DecodedCodePoint(first + ("\\u" + (second + rest))) == CodePoint(0x1_0000 + a * 0x400 + b, rest)
  {
    var s := first + ("\\u" + (second + rest));
    PairParts(first, second, rest, s);
    TenBits(0xd800, a);
    TenBits(0xdc00, b);
  }

  lemma PairParts(first: string, second: string, rest: string, s: string)
    requires |first| == 4 && |second| == 4 && s == first + ("\\u" + (second + rest))
    ensures |s| >= 10 && s[4] == '\\' && s[5] == 'u' && s[6..] == second + rest && s[10..] == rest
  {
  }

  lemma TenBits(base: nat, a: nat)
    requires a < 0x400 && (base == 0xd800 || base == 0xdc00)
    ensures (base + a) % 0x400 == a
  {
  }
}
