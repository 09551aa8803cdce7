/** Json::Reader of jsoncpp/jsoncpp/jsoncpp.cpp, proved against its functional form. */
module JsonReader {
  import opened JsonValue
  import opened JsonGrammar
  import opened Verdicts

  // ----- Numbers ------------------------------------------------------------------------------

  /** decodeNumber: the digits are added up in 64 bits, and never overflow them. */
  method DecodeNumber(token: string) returns (v: Value)
    requires token != ""
    ensures v == DecodedNumber(token)
  {
    var isNegative := token[0] == '-';
    var current: nat := if isNegative then 1 else 0;
    ghost var digits := token[current..];
    assert digits == if isNegative then token[1..] else token;
    var maxIntegerValue := Largest(isNegative);
    var threshold := maxIntegerValue / 10;
    var value: nat := 0;
    ghost var k: nat := 0;
    while current < |token|
      invariant k <= |digits| && current == |token| - |digits| + k <= |token| && digits == token[|token| - |digits|..]
      invariant AllDigits(digits[..k]) && value == DigitsValue(digits[..k]) <= maxIntegerValue
      decreases |token| - current
    {
      var c := token[current];
      current := current + 1;
      assert c == digits[k];
      if c < '0' || c > '9' {
        NotDigits(digits, k);
        return Real(token);
      }
      var digit := DigitOf(c);
      NextDigit(digits, k);
      if value >= threshold {
        if value > threshold || current != |token| || digit > maxIntegerValue % 10 {
          TooLarge(digits, k, value, threshold, maxIntegerValue % 10);
          return Real(token);
        }
      }
      assert value * 10 + digit <= maxIntegerValue;
      value := value * 10 + digit;
      k := k + 1;
    }
    assert digits[..k] == digits;
    if isNegative && value == maxIntegerValue {
      v := Int(-(MAX_LARGEST_INT as int) - 1);
    } else if isNegative {
      var n: int := value;
      v := Int(-n);
    } else if value <= MAX_INT {
      v := Int(value);
    } else {
      v := UInt(value);
    }
  }

  lemma NotDigits(digits: string, k: nat)
    requires k < |digits| && !IsDigit(digits[k])
    ensures !AllDigits(digits)
  {
  }

  lemma NextDigit(digits: string, k: nat)
    requires k < |digits| && AllDigits(digits[..k]) && IsDigit(digits[k])
    ensures AllDigits(digits[..k + 1])
      && DigitsValue(digits[..k + 1]) == 10 * DigitsValue(digits[..k]) + DigitOf(digits[k])
  {
    assert digits[..k + 1][..k] == digits[..k];
  }

  /** Digits make a number larger, and ten times larger before the last one. */
  lemma {:induction false} MoreDigits(digits: string, k: nat)
    requires k <= |digits| && AllDigits(digits)
    ensures DigitsValue(digits[..k]) <= DigitsValue(digits)
    ensures k < |digits| ==> 10 * DigitsValue(digits[..k]) <= DigitsValue(digits)
    decreases |digits| - k
  {
    if k < |digits| {
      NextDigit(digits, k);
      MoreDigits(digits, k + 1);
    } else {
      assert digits[..k] == digits;
    }
  }

  /** The code gives up only if the number does not fit. */
  lemma TooLarge(digits: string, k: nat, value: nat, tens: nat, last: nat)
    requires k < |digits| && AllDigits(digits[..k + 1]) && value == DigitsValue(digits[..k]) && last < 10 && 0 < tens
    requires DigitsValue(digits[..k + 1]) == 10 * value + DigitOf(digits[k])
    requires value > tens || (value == tens && (k + 1 < |digits| || DigitOf(digits[k]) > last))
    ensures !(AllDigits(digits) && DigitsValue(digits) <= 10 * tens + last)
  {
    if AllDigits(digits) {
      MoreDigits(digits, k + 1);
    }
  }

  // ----- Strings ------------------------------------------------------------------------------

  /** decodeUnicodeEscapeSequence */
  method DecodeUnicodeEscapeSequence(s: string, start: nat) returns (r: Option<nat>)
    requires start <= |s|
    ensures r == Hex4(s[start..])
  {
    if |s| - start < 4 {
      return None;
    }
    var unicode: nat := 0;
    var index: nat := 0;
    ghost var four := s[start..];
    while index < 4
      invariant index <= 4 && HexPrefix(four, index) == Some(unicode)
    {
      var d := HexValue(s[start + index]);
      assert four[index] == s[start + index];
      if d.None? {
        HexFails(four, index);
        return None;
      }
      unicode := unicode * 16 + d.value;
      index := index + 1;
    }
    HexWhole(four);
    r := Some(unicode);
  }

  /** The value of the first n of four digits. */
  function HexPrefix(s: string, n: nat): Option<nat>
    requires n <= |s|
  {
    if n == 0 then Some(0)
    else
      match (HexPrefix(s, n - 1), HexValue(s[n - 1]))
      case (Some(a), Some(b)) => Some(a * 16 + b)
      case _ => None
  }

  lemma HexWhole(s: string)
    requires |s| >= 4
    ensures HexPrefix(s, 4) == Hex4(s)
  {
    HexStep(s, 0);
    HexStep(s, 1);
    HexStep(s, 2);
    HexStep(s, 3);
  }

  lemma HexStep(s: string, n: nat)
    requires n < |s|
    ensures HexPrefix(s, n + 1).Some? <==> HexPrefix(s, n).Some? && HexValue(s[n]).Some?
    ensures HexPrefix(s, n + 1).Some? ==> HexPrefix(s, n + 1).value == HexPrefix(s, n).value * 16 + HexValue(s[n]).value
  {
  }

  lemma HexFails(s: string, n: nat)
    requires n < 4 <= |s| && HexValue(s[n]).None?
    ensures Hex4(s).None?
  {
  }

  /** decodeUnicodeCodePoint, from `start` on. */
  method DecodeUnicodeCodePoint(s: string, start: nat) returns (r: CodePoint)
    requires start <= |s|
    ensures r == DecodedCodePoint(s[start..])
  {
    var first := DecodeUnicodeEscapeSequence(s, start);
    if first.None? {
      return BadCodePoint;
    }
    var unicode := first.value;
    var current := start + 4;
    assert s[start..][4..] == s[current..];
    if unicode >= 0xd800 && unicode <= 0xdbff {
      if |s| - current < 6 {
        return BadCodePoint;
      }
      if s[current] == '\\' && s[current + 1] == 'u' {
        var second := DecodeUnicodeEscapeSequence(s, current + 2);
        assert s[start..][6..] == s[current + 2..];
        if second.None? {
          return BadCodePoint;
        }
        assert s[start..][10..] == s[current + 6..];
        r := CodePoint(0x1_0000 + unicode % 0x400 * 0x400 + second.value % 0x400, s[current + 6..]);
      } else {
        return BadCodePoint;
      }
    } else {
      r := CodePoint(unicode, s[current..]);
    }
  }

  /** decodeString, of what is between the quotes. */
  method DecodeString(s: string) returns (r: Option<string>)
    ensures r == DecodedString(s)
  {
    var decoded := "";
    var current: nat := 0;
    assert s[0..] == s;
    assert DecodedString(s) == Prepended(decoded, DecodedString(s[current..])) by {
      PrependedNothing(DecodedString(s));
    }
    while current < |s|
      invariant current <= |s| && DecodedString(s) == Prepended(decoded, DecodedString(s[current..]))
      decreases |s| - current
    {
      var c := s[current];
      ghost var left := s[current..];
      current := current + 1;
      assert left[1..] == s[current..] && left[..1] == [c];
      if c == '"' {
        assert decoded + "" == decoded;
        return Some(decoded);
      } else if c == '\\' {
        if current == |s| {
          return None;
        }
        var escape := s[current];
        current := current + 1;
        assert left[2..] == s[current..] && left[1] == escape;
        if escape == 'u' {
          var cp := DecodeUnicodeCodePoint(s, current);
          if cp.BadCodePoint? {
            return None;
          }
          current := |s| - |cp.rest|;
          CodePointRest(left[2..], cp);
          assert s[current..] == cp.rest;
          Piece(decoded, Utf8(cp.value), DecodedString(cp.rest));
          decoded := decoded + Utf8(cp.value);
        } else {
          var u := Unescaped(escape);
          if u.None? {
            return None;
          }
          Piece(decoded, [u.value], DecodedString(s[current..]));
          decoded := decoded + [u.value];
        }
      } else {
        Piece(decoded, [c], DecodedString(s[current..]));
        decoded := decoded + [c];
      }
    }
    assert s[current..] == "";
    assert decoded + "" == decoded;
    r := Some(decoded);
  }

  lemma CodePointRest(s: string, cp: CodePoint)
    requires cp == DecodedCodePoint(s) && cp.CodePoint?
    ensures |cp.rest| <= |s| && s[|s| - |cp.rest|..] == cp.rest
  {
  }

  lemma PrependedNothing(r: Option<string>)
    ensures Prepended("", r) == r
  {
    if r.Some? {
      assert "" + r.value == r.value;
    }
  }

  lemma Piece(a: string, b: string, r: Option<string>)
    ensures Prepended(a, Prepended(b, r)) == Prepended(a + b, r)
  {
    if r.Some? {
      assert a + (b + r.value) == a + b + r.value;
    }
  }

  // ----- The reader ---------------------------------------------------------------------------

  /** What readValue comes to: a value, false, or an exception. */
  datatype Result = Done(value: Value) | Error | Exception

  class Reader {
    var document: string
    var current: nat
    var stackDepth: nat

    constructor ()
      ensures Valid()
    {
      document, current, stackDepth := "", 0, 0;
    }

    ghost predicate Valid()
      reads this
    {
      current <= |document|
    }

    /** What is still to be read. */
    ghost function Rest(): string
      requires Valid()
      reads this
    {
      document[current..]
    }

    method SkipSpaces()
      requires Valid()
      modifies this`current
      ensures Valid() && current >= old(current) && Rest() == JsonGrammar.SkipSpaces(old(Rest()))
    {
      while current != |document|
        invariant Valid() && current >= old(current)
        invariant JsonGrammar.SkipSpaces(Rest()) == JsonGrammar.SkipSpaces(old(Rest()))
        decreases |document| - current
      {
        var c := document[current];
        assert Rest()[0] == c && Rest()[1..] == document[current + 1..];
        if IsSpace(c) {
          current := current + 1;
        } else {
          break;
        }
      }
    }

    method GetNextChar() returns (c: char)
      requires Valid()
      modifies this`current
      ensures Valid() && (if old(Rest()) == "" then c == 0 as char && Rest() == ""
        else c == old(Rest())[0] && Rest() == old(Rest())[1..])
      ensures old(current) <= current <= old(current) + 1
    {
      if current == |document| {
        return 0 as char;
      }
      c := document[current];
      current := current + 1;
    }

    method Match(pattern: string) returns (ok: bool)
      requires Valid()
      modifies this`current
      ensures Valid() && ok == (|pattern| <= |old(Rest())| && old(Rest())[..|pattern|] == pattern)
      ensures current == old(current) + if ok then |pattern| else 0
    {
      if |document| - current < |pattern| {
        return false;
      }
      var index := |pattern|;
      while index > 0
        invariant 0 <= index <= |pattern| && current == old(current)
        invariant forall k :: index <= k < |pattern| ==> document[current + k] == pattern[k]
      {
        index := index - 1;
        if document[current + index] != pattern[index] {
          assert Rest()[..|pattern|][index] == document[current + index];
          return false;
        }
      }
      assert Rest()[..|pattern|] == pattern;
      current := current + |pattern|;
      return true;
    }

    method SkipDigits()
      requires Valid()
      modifies this`current
      ensures Valid() && current >= old(current) && Rest() == AfterDigits(old(Rest()))
    {
      while current < |document| && IsDigit(document[current])
        invariant Valid() && current >= old(current) && AfterDigits(Rest()) == AfterDigits(old(Rest()))
        decreases |document| - current
      {
        assert Rest()[0] == document[current] && Rest()[1..] == document[current + 1..];
        current := current + 1;
      }
      assert current < |document| ==> Rest()[0] == document[current];
    }

    lemma Head()
      requires Valid()
      ensures current == |document| <==> Rest() == ""
      ensures current < |document| ==> Rest()[0] == document[current] && Rest()[1..] == document[current + 1..]
    {
    }

    /** readNumber: digits, a fraction, an exponent. */
    method ReadNumber()
      requires Valid()
      modifies this`current
      ensures Valid() && current >= old(current) && Rest() == AfterNumber(old(Rest()))
    {
      SkipDigits();
      ReadFraction();
      ReadExponent();
    }

    method ReadFraction()
      requires Valid()
      modifies this`current
      ensures Valid() && current >= old(current) && Rest() == AfterFraction(old(Rest()))
    {
      Head();
      if current < |document| && document[current] == '.' {
        current := current + 1;
        SkipDigits();
      }
    }

    method ReadExponent()
      requires Valid()
      modifies this`current
      ensures Valid() && current >= old(current) && Rest() == AfterExponent(old(Rest()))
    {
      Head();
      if current < |document| && (document[current] == 'e' || document[current] == 'E') {
        current := current + 1;
        Head();
        if current < |document| && (document[current] == '+' || document[current] == '-') {
          current := current + 1;
        }
        SkipDigits();
      }
    }

    /** Whether a closing quote has been found. */
    method ReadString() returns (ok: bool)
      requires Valid()
      modifies this`current
      ensures Valid() && current >= old(current)
      ensures match AfterString(old(Rest())) case None => !ok && Rest() == "" case Some(r) => ok && Rest() == r
    {
      var c := 0 as char;
      while current != |document|
        invariant Valid() && current >= old(current) && c != '"'
        invariant AfterString(Rest()) == AfterString(old(Rest()))
        decreases |document| - current
      {
        ghost var left := Rest();
        c := GetNextChar();
        if c == '\\' {
          var skipped := GetNextChar();
          assert |left| >= 2 ==> left[1..][1..] == left[2..];
        } else if c == '"' {
          break;
        }
      }
      return c == '"';
    }

    method ReadToken() returns (t: Token)
      requires Valid()
      modifies this`current
      ensures Valid() && current >= old(current) && t == NextToken(old(Rest())) && Rest() == t.rest
    {
      SkipSpaces();
      var start := current;
      ghost var a := Rest();
      if current == |document| {
        return Token(EndOfStream, "", "");
      }
      var c := GetNextChar();
      var kind := Classify(c, a);
      TokenText(document, start, current);
      TextOfToken(a);
      t := Token(kind, document[start..current], document[current..]);
    }

    /** The rest of a token that starts with c. */
    method Classify(c: char, ghost a: string) returns (kind: Kind)
      requires Valid() && a != "" && a[0] == c && Rest() == a[1..]
      modifies this`current
      ensures Valid() && current >= old(current) && kind == TokenAt(a).kind && Rest() == TokenAt(a).rest
    {
      var ok := true;
      if c == '"' {
        kind := StringToken;
        ok := ReadString();
      } else if IsDigit(c) || c == '-' {
        kind := NumberToken;
        ReadNumber();
      } else if c == 't' || c == 'f' || c == 'n' {
        kind := if c == 't' then TrueToken else if c == 'f' then FalseToken else NullToken;
        ok := Match(if c == 't' then "rue" else if c == 'f' then "alse" else "ull");
      } else {
        kind := Punctuation(c);
      }
      if !ok {
        kind := ErrorToken;
      }
    }

    static function Punctuation(c: char): Kind {
      match c
      case '{' => ObjectBegin
      case '}' => ObjectEnd
      case '[' => ArrayBegin
      case ']' => ArrayEnd
      case ',' => Comma
      case ':' => Colon
      case _ => if c == 0 as char then EndOfStream else ErrorToken
    }

    /** parse */
    method Parse(text: string) returns (r: Result)
      modifies this
      ensures r
        == (match JsonGrammar.Parse(text) case Got(v, _) => Done(v) case Failed => Error case Thrown => Exception)
    {
      document, current, stackDepth := text, 0, 0;
      assert document[0..] == text;
      r := ReadValue();
    }

    /** readValue */
    method ReadValue() returns (r: Result)
      requires Valid()
      modifies this`current, this`stackDepth
      ensures Valid() && Ended(JsonGrammar.ReadValue(old(Rest()), old(stackDepth)), r, Rest()).Sound?
      ensures r.Done? ==> stackDepth == old(stackDepth) && current > old(current)
      decreases |document| - current, 0
    {
      if stackDepth >= STACK_LIMIT {
        return Exception;
      }
      stackDepth := stackDepth + 1;
      var token := ReadToken();
      r := Error;
      match token.kind {
      case ObjectBegin => r := ReadObject();
      case ArrayBegin => r := ReadArray();
      case NumberToken =>
        var v := DecodeNumber(token.text);
        r := Done(v);
      case StringToken =>
        var d := DecodeString(Inside(token.text));
        if d.Some? {
          r := Done(Str(d.value));
        }
      case TrueToken => r := Done(Bool(true));
      case FalseToken => r := Done(Bool(false));
      case NullToken => r := Done(Null);
      case _ =>
      }
      if r.Done? {
        stackDepth := stackDepth - 1;
      }
    }

    /** readArray */
    method ReadArray() returns (r: Result)
      requires Valid()
      modifies this`current, this`stackDepth
      ensures Valid() && Ended(JsonGrammar.ReadArray(old(Rest()), old(stackDepth)), r, Rest()).Sound?
      ensures r.Done? ==> stackDepth == old(stackDepth) && current > old(current)
      decreases |document| - current, 2
    {
      SkipSpaces();
      if current < |document| && document[current] == ']' {
        current := current + 1;
        return Done(Arr([]));
      }
      var items: seq<Value> := [];
      ghost var target := ReadItems(Rest(), [], stackDepth);
      while true
        invariant Valid() && stackDepth == old(stackDepth) && current >= old(current)
        invariant ReadItems(Rest(), items, stackDepth) == target
        decreases |document| - current
      {
        var v := ReadValue();
        if !v.Done? {
          return v;
        }
        var token := ReadToken();
        items := items + [v.value];
        if token.kind != Comma && token.kind != ArrayEnd {
          return Error;
        }
        if token.kind == ArrayEnd {
          return Done(Arr(items));
        }
      }
    }

    /** readObject */
    method ReadObject() returns (r: Result)
      requires Valid()
      modifies this`current, this`stackDepth
      ensures Valid() && Ended(ReadMembers(old(Rest()), [], "", old(stackDepth)), r, Rest()).Sound?
      ensures r.Done? ==> stackDepth == old(stackDepth) && current > old(current)
      decreases |document| - current, 1
    {
      var members: seq<Member> := [];
      var name := "";
      ghost var target := ReadMembers(Rest(), [], "", stackDepth);
      while true
        invariant Valid() && stackDepth == old(stackDepth) && current >= old(current)
        invariant ReadMembers(Rest(), members, name, stackDepth) == target
        decreases |document| - current
      {
        var tokenName := ReadToken();
        if tokenName.kind == ObjectEnd && name == "" {
          return Done(Obj(members));
        }
        if tokenName.kind != StringToken {
          return Error;
        }
        var decoded := DecodeString(Inside(tokenName.text));
        if decoded.None? {
          return Error;
        }
        name := decoded.value;
        var colon := ReadToken();
        if colon.kind != Colon {
          return Error;
        }
        var v := ReadValue();
        if !v.Done? {
          return v;
        }
        members := Assigned(members, name, v.value);
        var comma := ReadToken();
        if comma.kind != ObjectEnd && comma.kind != Comma {
          return Error;
        }
        if comma.kind == ObjectEnd {
          return Done(Obj(members));
        }
      }
    }
  }

  /** The reader has come to what its functional form comes to, and to the same place. */
  function Ended(o: Outcome<Value>, r: Result, rest: string): Verdict {
    var same := match o
      case Got(v, left) => r == Done(v) && rest == left
      case Failed => r == Error
      case Thrown => r == Exception;
    if same then Sound else Broken
  }

  lemma TextOfToken(a: string)
    requires a != ""
    ensures TokenAt(a).text == a[..|a| - |TokenAt(a).rest|]
  {
  }

  lemma TokenText(document: string, start: nat, end: nat)
    requires start <= end <= |document|
    ensures document[start..end] == document[start..][..|document[start..]| - |document[end..]|]
    ensures document[start..][end - start..] == document[end..]
  {
  }
}
