/** The C library functions on text that curl_http/happyhttp/happyhttp.cpp relies on. */
module HttpText {
  const CR: char := '\r'
  const LF: char := '\n'

  /** The text that a C string function sees. */
  function CString(s: string): (t: string)
    ensures t <= s
  {
    if s == [] || s[0] == '\0' then [] else [s[0]] + CString(s[1..])
  }

  function ToLower(c: char): char {
    if 'A' <= c <= 'Z' then (c as int + 32) as char else c
  }

  function Lower(s: string): (t: string)
    ensures |t| == |s| && forall i :: 0 <= i < |s| ==> t[i] == ToLower(s[i])
  {
    if s == [] then [] else [ToLower(s[0])] + Lower(s[1..])
  }

  /** strcasecmp gives 0. */
  predicate SameIgnoringCase(a: string, b: string) {
    Lower(CString(a)) == Lower(b)
  }

  predicate IsSpace(c: char) {
    c == ' ' || c == '\t' || c == LF || c == CR || c as int == 11 || c as int == 12
  }

  /** The text from the first character on that is not of a kind. */
  function SkipBlanks(s: string): string {
    if s != [] && s[0] == ' ' then SkipBlanks(s[1..]) else s
  }

  function SkipSpaces(s: string): string {
    if s != [] && IsSpace(s[0]) then SkipSpaces(s[1..]) else s
  }

  function SkipBlanksAndTabs(s: string): string {
    if s != [] && (s[0] == ' ' || s[0] == '\t') then SkipBlanksAndTabs(s[1..]) else s
  }

  /** The text up to the first `stop`, and what is left from there on. */
  function Until(s: string, stop: char): (string, string) {
    if s == [] || s[0] == stop then ([], s)
    else var (a, b) := Until(s[1..], stop); ([s[0]] + a, b)
  }

  // ----- Numbers ------------------------------------------------------------------------------

  const LONG_MAX: int := 0x7FFF_FFFF_FFFF_FFFF

  function Digit(c: char): nat {
    var v := c as int;
    if 48 <= v <= 57 then v - 48
    else if 97 <= v <= 122 then v - 87
    else if 65 <= v <= 90 then v - 55
    else 36
  }

  predicate IsBase(base: nat) {
    base == 10 || base == 16
  }

  function Times(base: nat, n: nat): nat
    requires IsBase(base)
  {
    if base == 10 then 10 * n else 16 * n
  }

  /** The number that the digits at the start of s continue. */
  function Digits(s: string, base: nat, acc: nat): nat
    requires IsBase(base)
  {
    if s == [] || Digit(s[0]) >= base then acc else Digits(s[1..], base, Times(base, acc) + Digit(s[0]))
  }

  function Magnitude(s: string, base: nat): nat
    requires IsBase(base)
  {
    if base == 16 && |s| >= 3 && s[0] == '0' && (s[1] == 'x' || s[1] == 'X') && Digit(s[2]) < 16 then
      Digits(s[2..], 16, 0)
    else Digits(s, base, 0)
  }

  /** strtol with a long of 64 bits. */
  function StrToL(text: string, base: nat): int
    requires IsBase(base)
  {
    var s := SkipSpaces(CString(text));
    var signed := s != [] && (s[0] == '-' || s[0] == '+');
    var m: int := Magnitude(if signed then s[1..] else s, base);
    var v: int := if signed && s[0] == '-' then 0 - m else m;
    if v > LONG_MAX then LONG_MAX else if v < -LONG_MAX - 1 then -LONG_MAX - 1 else v
  }

  /** The conversion of a long to an int of 32 bits. */
  function ToInt(v: int): (i: int)
    ensures -0x8000_0000 <= i < 0x8000_0000
  {
    (v + 0x8000_0000) % 0x1_0000_0000 - 0x8000_0000
  }

  function Atoi(text: string): int {
    ToInt(StrToL(text, 10))
  }

  // ----- Writing numbers ----------------------------------------------------------------------

  function DigitChar(d: nat): (c: char)
    requires d < 16
    ensures Digit(c) == d
  {
    if d < 10 then (d + 48) as char else (d + 87) as char
  }

  function Numeral(n: nat, base: nat): (s: string)
    requires IsBase(base)
    ensures s != []
    decreases n
  {
    if n < base then [DigitChar(n)]
    else if base == 10 then Numeral(n / 10, base) + [DigitChar(n % 10)]
    else Numeral(n / 16, base) + [DigitChar(n % 16)]
  }

  lemma {:induction false} ReadNumeral(n: nat, base: nat, rest: string)
    requires IsBase(base)
    ensures Digits(Numeral(n, base) + rest, base, 0) == Digits(rest, base, n)
    decreases n
  {
    if n < base {
      assert (Numeral(n, base) + rest)[1..] == rest;
    } else {
      var q, r := if base == 10 then n / 10 else n / 16, if base == 10 then n % 10 else n % 16;
      var last := [DigitChar(r)];
      assert Numeral(n, base) + rest == Numeral(q, base) + (last + rest);
      ReadNumeral(q, base, last + rest);
      ReadDigit(last[0], rest, base, q);
    }
  }

  lemma {:induction false} ReadDigit(c: char, rest: string, base: nat, acc: nat)
    requires IsBase(base) && Digit(c) < base
    ensures Digits([c] + rest, base, acc) == Digits(rest, base, Times(base, acc) + Digit(c))
  {
    assert ([c] + rest)[1..] == rest;
  }

  lemma {:induction false} NumeralDigits(n: nat, base: nat)
    requires IsBase(base)
    ensures forall i | 0 <= i < |Numeral(n, base)| :: Digit(Numeral(n, base)[i]) < base
    decreases n
  {
    if n >= base {
      NumeralDigits(if base == 10 then n / 10 else n / 16, base);
    }
  }

  predicate Plain(s: string) {
    '\0' !in s
  }

  lemma {:induction false} PlainCString(s: string)
    requires Plain(s)
    ensures CString(s) == s
    decreases s
  {
    if s != [] {
      PlainCString(s[1..]);
    }
  }

  /** strtol reads back a numeral, if what follows is no digit and it fits. */
  lemma {:induction false} ReadsBack(n: nat, base: nat, rest: string)
    requires IsBase(base)
    requires n <= LONG_MAX && Plain(rest)
      && (rest == [] || (Digit(rest[0]) >= base && rest[0] != 'x' && rest[0] != 'X'))
    ensures StrToL(Numeral(n, base) + rest, base) == n
  {
    var w := Numeral(n, base);
    var s := w + rest;
    NumeralDigits(n, base);
    assert forall c :: c in w ==> Digit(c) < base;
    PlainCString(s);
    assert s[0] == w[0] && Digit(s[0]) < base;
    assert SkipSpaces(s) == s;
    ReadNumeral(n, base, rest);
    if base == 16 && |s| >= 3 && s[0] == '0' {
      assert s[1] != 'x' && s[1] != 'X' by {
        if |w| > 1 {
          assert s[1] == w[1] && w[1] in w;
        }
      }
    }
  }

  // ----- The loops over a text ----------------------------------------------------------------

  lemma {:induction false} UntilFrom(s: string, i: nat, stop: char)
    requires i < |s| && s[i] != stop
    ensures Until(s[i..], stop).0 == [s[i]] + Until(s[i + 1..], stop).0
    ensures Until(s[i..], stop).1 == Until(s[i + 1..], stop).1
  {
    assert s[i..][1..] == s[i + 1..];
  }

  /** while( *p && *p != stop ) word += *p++; */
  method Scan(s: string, stop: char) returns (word: string, rest: string)
    ensures (word, rest) == Until(s, stop)
  {
    var i := 0;
    word := [];
    assert s[0..] == s;
    while i < |s| && s[i] != stop
      invariant i <= |s| && word + Until(s[i..], stop).0 == Until(s, stop).0
      invariant Until(s[i..], stop).1 == Until(s, stop).1
    {
      UntilFrom(s, i, stop);
      word := word + [s[i]];
      i := i + 1;
    }
    rest := s[i..];
    assert word + [] == word;
  }

  /** while( *p && *p == ' ' ) ++p; */
  method DropBlanks(s: string) returns (rest: string)
    ensures rest == SkipBlanks(s)
  {
    var i := 0;
    assert s[0..] == s;
    while i < |s| && s[i] == ' '
      invariant i <= |s| && SkipBlanks(s[i..]) == SkipBlanks(s)
    {
      assert s[i..][1..] == s[i + 1..];
      i := i + 1;
    }
    rest := s[i..];
  }

  /** while( *p && isspace( *p ) ) ++p; */
  method DropSpaces(s: string) returns (rest: string)
    ensures rest == SkipSpaces(s)
  {
    var i := 0;
    assert s[0..] == s;
    while i < |s| && IsSpace(s[i])
      invariant i <= |s| && SkipSpaces(s[i..]) == SkipSpaces(s)
    {
      assert s[i..][1..] == s[i + 1..];
      i := i + 1;
    }
    rest := s[i..];
  }

  /** while( *p && (*p == ' ' || *p == '\t') ) ++p; */
  method DropBlanksAndTabs(s: string) returns (rest: string)
    ensures rest == SkipBlanksAndTabs(s)
  {
    var i := 0;
    assert s[0..] == s;
    while i < |s| && (s[i] == ' ' || s[i] == '\t')
      invariant i <= |s| && SkipBlanksAndTabs(s[i..]) == SkipBlanksAndTabs(s)
    {
      assert s[i..][1..] == s[i + 1..];
      i := i + 1;
    }
    rest := s[i..];
  }
}
