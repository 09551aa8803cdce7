/** Json::Reader of jsoncpp/jsoncpp/jsoncpp.cpp as functions of the text that is still to be read, with the
    features of Features::all() except comments. */
module JsonGrammar {
  import opened JsonValue

  datatype Option<T> = None | Some(value: T)

  datatype Kind =
    | EndOfStream
    | ObjectBegin
    | ObjectEnd
    | ArrayBegin
    | ArrayEnd
    | StringToken
    | NumberToken
    | TrueToken
    | FalseToken
    | NullToken
    | Comma
    | Colon
    | ErrorToken

  /** A token, its text, and what comes after it. */
  datatype Token = Token(kind: Kind, text: string, rest: string)

  predicate IsSpace(c: char) {
    c == ' ' || c == '\t' || c == '\r' || c == '\n'
  }

  function SkipSpaces(s: string): (r: string)
    ensures |r| <= |s|
  {
    if s != "" && IsSpace(s[0]) then SkipSpaces(s[1..]) else s
  }

  function AfterDigits(s: string): (r: string)
    ensures |r| <= |s|
  {
    if s != "" && IsDigit(s[0]) then AfterDigits(s[1..]) else s
  }

  function AfterFraction(a: string): (r: string)
    ensures |r| <= |a|
  {
    if a != "" && a[0] == '.' then AfterDigits(a[1..]) else a
  }

  function AfterSign(c: string): (r: string)
    ensures |r| <= |c|
  {
    if c != "" && (c[0] == '+' || c[0] == '-') then c[1..] else c
  }

  function AfterExponent(b: string): (r: string)
    ensures |r| <= |b|
  {
    if b != "" && (b[0] == 'e' || b[0] == 'E') then AfterDigits(AfterSign(b[1..])) else b
  }

  /** readNumber, from behind the first character. */
  function AfterNumber(s: string): (r: string)
    ensures |r| <= |s|
  {
    AfterExponent(AfterFraction(AfterDigits(s)))
  }

  /** readString, from behind the opening quote. */
  function AfterString(s: string): (r: Option<string>)
    ensures r.Some? ==> |r.value| < |s|
    decreases |s|
  {
    if s == "" then None
    else if s[0] == '\\' then AfterString(if |s| == 1 then "" else s[2..])
    else if s[0] == '"' then Some(s[1..])
    else AfterString(s[1..])
  }

  function Matched(s: string, pattern: string, kind: Kind, start: string): Token
    requires |s| < |start|
  {
    if |pattern| <= |s| && s[..|pattern|] == pattern
    then Token(kind, start[..|start| - |s[|pattern|..]|], s[|pattern|..])
    else Token(ErrorToken, start[..|start| - |s|], s)
  }

  function Single(kind: Kind, s: string): Token
    requires s != ""
  {
    Token(kind, s[..1], s[1..])
  }

  /** The token of a text that does not start with a space. */
  function TokenAt(s: string): (t: Token)
    requires s != ""
    ensures |t.rest| < |s| && t.text != ""
  {
    var c := s[0];
    if c == '{' then Single(ObjectBegin, s)
    else if c == '}' then Single(ObjectEnd, s)
    else if c == '[' then Single(ArrayBegin, s)
    else if c == ']' then Single(ArrayEnd, s)
    else if c == '"' then
      match AfterString(s[1..])
      case None => Token(ErrorToken, s, "")
      case Some(r) => Token(StringToken, s[..|s| - |r|], r)
    else if IsDigit(c) || c == '-' then
      var r := AfterNumber(s[1..]);
      Token(NumberToken, s[..|s| - |r|], r)
    else if c == 't' then Matched(s[1..], "rue", TrueToken, s)
    else if c == 'f' then Matched(s[1..], "alse", FalseToken, s)
    else if c == 'n' then Matched(s[1..], "ull", NullToken, s)
    else if c == ',' then Single(Comma, s)
    else if c == ':' then Single(Colon, s)
    else if c == 0 as char then Single(EndOfStream, s)
    else Single(ErrorToken, s)
  }

  /** readToken */
  function NextToken(s: string): (t: Token)
    ensures |t.rest| <= |s| && (t.kind != EndOfStream ==> |t.rest| < |s| && t.text != "")
  {
    var a := SkipSpaces(s);
    if a == "" then Token(EndOfStream, "", "") else TokenAt(a)
  }

  // ----- Numbers and strings ------------------------------------------------------------------

  function Largest(negative: bool): nat {
    if negative then MAX_LARGEST_INT + 1 else MAX_LARGEST_UINT
  }

  /** decodeNumber: an integer if it is one that fits, and else left to decodeDouble. */
  function DecodedNumber(text: string): Value
    requires text != ""
  {
    var negative := text[0] == '-';
    var digits := if negative then text[1..] else text;
    if AllDigits(digits) && DigitsValue(digits) <= Largest(negative)
    then
      var n: int := DigitsValue(digits);
      Tagged(if negative then -n else n)
    else Real(text)
  }

  /** codePointToUTF8; nothing for what is no code point. */
  function Utf8(cp: nat): string {
    if cp <= 0x7f then [cp as char]
    else if cp <= 0x7ff then [(0xc0 + cp / 0x40) as char, (0x80 + cp % 0x40) as char]
    else if cp <= 0xffff then
      [(0xe0 + cp / 0x1000) as char, (0x80 + cp / 0x40 % 0x40) as char, (0x80 + cp % 0x40) as char]
    else if cp <= 0x10ffff then
      [(0xf0 + cp / 0x4_0000) as char, (0x80 + cp / 0x1000 % 0x40) as char, (0x80 + cp / 0x40 % 0x40) as char,
       (0x80 + cp % 0x40) as char]
    else ""
  }

  function HexValue(c: char): (v: Option<nat>)
    ensures v.Some? ==> v.value < 16
  {
    if '0' <= c <= '9' then Some(c as int - '0' as int)
    else if 'a' <= c <= 'f' then Some(c as int - 'a' as int + 10)
    else if 'A' <= c <= 'F' then Some(c as int - 'A' as int + 10)
    else None
  }

  /** decodeUnicodeEscapeSequence: the value of four hexadecimal digits. */
  function Hex4(s: string): (v: Option<nat>)
    ensures v.Some? ==> v.value < 0x1_0000 && |s| >= 4
  {
    if |s| < 4 then None
    else
      match (HexValue(s[0]), HexValue(s[1]), HexValue(s[2]), HexValue(s[3]))
      case (Some(a), Some(b), Some(c), Some(d)) => Some(((a * 16 + b) * 16 + c) * 16 + d)
      case _ => None
  }

  datatype CodePoint = CodePoint(value: nat, rest: string) | BadCodePoint

  /** decodeUnicodeCodePoint: one escape, or two for a surrogate pair. */
  function DecodedCodePoint(s: string): (r: CodePoint)
    ensures r.CodePoint? ==> |r.rest| < |s|
  {
    match Hex4(s)
    case None => BadCodePoint
    case Some(u) =>
      if !(0xd800 <= u <= 0xdbff) then CodePoint(u, s[4..])
      else if |s| < 10 || s[4] != '\\' || s[5] != 'u' then BadCodePoint
      else
        match Hex4(s[6..])
        case None => BadCodePoint
        case Some(w) => CodePoint(0x1_0000 + u % 0x400 * 0x400 + w % 0x400, s[10..])
  }

  function Unescaped(c: char): Option<char> {
    if c == '"' || c == '/' || c == '\\' then Some(c)
    else if c == 'b' then Some(8 as char)
    else if c == 'f' then Some(12 as char)
    else if c == 'n' then Some('\n')
    else if c == 'r' then Some('\r')
    else if c == 't' then Some('\t')
    else None
  }

  function Prepended(s: string, r: Option<string>): Option<string> {
    match r
    case None => None
    case Some(t) => Some(s + t)
  }

  /** decodeString, of what is between the quotes. */
  function DecodedString(s: string): Option<string>
    decreases |s|
  {
    if s == "" || s[0] == '"' then Some("")
    else if s[0] != '\\' then Prepended(s[..1], DecodedString(s[1..]))
    else if |s| == 1 then None
    else if s[1] == 'u' then
      match DecodedCodePoint(s[2..])
      case BadCodePoint => None
      case CodePoint(u, rest) => Prepended(Utf8(u), DecodedString(rest))
    else
      match Unescaped(s[1])
      case None => None
      case Some(c) => Prepended([c], DecodedString(s[2..]))
  }

  function Inside(text: string): string {
    if |text| < 2 then "" else text[1..|text| - 1]
  }

  // ----- Values -------------------------------------------------------------------------------

  const STACK_LIMIT: nat := 1000

  /** What a reading comes to: something and the text after it, a failure, or an exception because values are
      nested too deep. */
  datatype Outcome<T> = Got(value: T, rest: string) | Failed | Thrown

  /** Assigns to a member of an object, which is created if there is none of that name. */
  function Assigned(members: seq<Member>, name: string, v: Value): seq<Member> {
    if members == [] then [Member(name, v)]
    else if members[0].name == name then [Member(name, v)] + members[1..]
    else if Less(name, members[0].name) then [Member(name, v)] + members
    else [members[0]] + Assigned(members[1..], name, v)
  }

  /** readValue, with stackDepth_g of `depth`. */
  function ReadValue(s: string, depth: nat): (r: Outcome<Value>)
    ensures r.Got? ==> |r.rest| < |s|
    decreases |s|, 0
  {
    if depth >= STACK_LIMIT then Thrown
    else
      var t := NextToken(s);
      match t.kind
      case ObjectBegin => ReadMembers(t.rest, [], "", depth + 1)
      case ArrayBegin => ReadArray(t.rest, depth + 1)
      case NumberToken => Got(DecodedNumber(t.text), t.rest)
      case StringToken =>
        (match DecodedString(Inside(t.text))
         case None => Failed
         case Some(d) => Got(Str(d), t.rest))
      case TrueToken => Got(Bool(true), t.rest)
      case FalseToken => Got(Bool(false), t.rest)
      case NullToken => Got(Null, t.rest)
      case _ => Failed
  }

  /** readArray, from behind the bracket. */
  function ReadArray(s: string, depth: nat): (r: Outcome<Value>)
    ensures r.Got? ==> |r.rest| < |s|
    decreases |s|, 2
  {
    var a := SkipSpaces(s);
    if a != "" && a[0] == ']' then Got(Arr([]), a[1..]) else ReadItems(a, [], depth)
  }

  function ReadItems(s: string, items: seq<Value>, depth: nat): (r: Outcome<Value>)
    ensures r.Got? ==> |r.rest| < |s|
    decreases |s|, 1
  {
    match ReadValue(s, depth)
    case Failed => Failed
    case Thrown => Thrown
    case Got(v, rest) =>
      var t := NextToken(rest);
      if t.kind == Comma then ReadItems(t.rest, items + [v], depth)
      else if t.kind == ArrayEnd then Got(Arr(items + [v]), t.rest)
      else Failed
  }

  /** readObject, from behind the brace or a comma; `name` is the name of the last member. */
  function ReadMembers(s: string, members: seq<Member>, name: string, depth: nat): (r: Outcome<Value>)
    ensures r.Got? ==> |r.rest| < |s|
    decreases |s|, 1
  {
    var t := NextToken(s);
    if t.kind == ObjectEnd && name == "" then Got(Obj(members), t.rest)
    else if t.kind != StringToken then Failed
    else
      match DecodedString(Inside(t.text))
      case None => Failed
      case Some(n) =>
        var colon := NextToken(t.rest);
        if colon.kind != Colon then Failed
        else
          match ReadValue(colon.rest, depth)
          case Failed => Failed
          case Thrown => Thrown
          case Got(v, rest) =>
            var comma := NextToken(rest);
            if comma.kind == ObjectEnd then Got(Obj(Assigned(members, n, v)), comma.rest)
            else if comma.kind == Comma then ReadMembers(comma.rest, Assigned(members, n, v), n, depth)
            else Failed
  }

  /** parse */
  function Parse(document: string): Outcome<Value> {
    ReadValue(document, 0)
  }
}
