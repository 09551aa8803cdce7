/** Lines, and what is on them, of ini/ini-parser/ini.hpp. */
module IniText {
  /** What trim removes: strchr also finds the zero byte at the end of its pattern. */
  predicate IsBlank(c: char) {
    c == ' ' || c == '\t' || c == '\r' || c == '\n' || c == 0 as char
  }

  function TrimLeft(s: string): (r: string)
    ensures |r| <= |s|
  {
    if s != "" && IsBlank(s[0]) then TrimLeft(s[1..]) else s
  }

  function TrimRight(s: string): (r: string)
    ensures |r| <= |s|
  {
    if s != "" && IsBlank(s[|s| - 1]) then TrimRight(s[..|s| - 1]) else s
  }

  function Trimmed(s: string): string {
    TrimRight(TrimLeft(s))
  }

  /** Text without blanks at its ends stays as it is. */
  lemma TrimKeeps(s: string)
    requires s == "" || (!IsBlank(s[0]) && !IsBlank(s[|s| - 1]))
    ensures Trimmed(s) == s
  {
  }

  /** What has been trimmed has no blanks at its ends. */
  lemma {:induction false} TrimmedEnds(s: string)
    ensures TrimRight(s) == "" || !IsBlank(TrimRight(s)[|TrimRight(s)| - 1])
    ensures TrimRight(s) <= s
  {
    if s != "" && IsBlank(s[|s| - 1]) {
      TrimmedEnds(s[..|s| - 1]);
    }
  }

  /** trim, which moves two positions from the ends. */
  method Trim(s: string) returns (r: string)
    ensures r == Trimmed(s)
  {
    var sp, ep := 0, |s| - 1;
    assert s[0..] == s;
    while sp <= ep
      invariant 0 <= sp <= |s| && ep == |s| - 1 && TrimLeft(s[sp..]) == TrimLeft(s)
    {
      if !IsBlank(s[sp]) {
        break;
      }
      assert s[sp..][1..] == s[sp + 1..];
      sp := sp + 1;
    }
    assert s[sp..] == TrimLeft(s);
    ghost var left := s[sp..];
    assert s[..ep + 1] == s;
    while ep >= 0
      invariant -1 <= ep < |s| && (sp < |s| ==> !IsBlank(s[sp]) && sp <= ep)
      invariant sp <= ep + 1 ==> TrimRight(s[sp..ep + 1]) == TrimRight(left)
      invariant sp == |s| ==> left == ""
    {
      if !IsBlank(s[ep]) {
        break;
      }
      if sp <= ep {
        assert s[sp..ep + 1][..ep - sp] == s[sp..ep];
      }
      ep := ep - 1;
    }
    if sp <= ep + 1 {
      r := s[sp..ep + 1];
    } else {
      r := s[sp..];
    }
  }

  // ----- Lines --------------------------------------------------------------------------------

  /** Where the first line ends. */
  function LineEnd(s: string): (n: nat)
    ensures n <= |s| && (n < |s| ==> s[n] == '\n')
    ensures forall i | 0 <= i < n :: s[i] != '\n'
  {
    if s == "" || s[0] == '\n' then 0 else 1 + LineEnd(s[1..])
  }

  /** What getline leaves. */
  function AfterLine(s: string): (r: string)
    requires s != ""
    ensures |r| < |s|
  {
    var n := LineEnd(s);
    if n < |s| then s[n + 1..] else ""
  }

  predicate OneLine(s: string) {
    forall i | 0 <= i < |s| :: s[i] != '\n'
  }

  lemma {:induction false} LineReads(line: string, rest: string)
    requires OneLine(line)
    ensures LineEnd(line + "\n" + rest) == |line|
    ensures (line + "\n" + rest)[..|line|] == line && AfterLine(line + "\n" + rest) == rest
  {
    if line != "" {
      LineReads(line[1..], rest);
      assert (line + "\n" + rest)[1..] == line[1..] + "\n" + rest;
    }
  }

  // ----- Sections and keys --------------------------------------------------------------------

  /** The number of opening brackets. */
  function Brackets(line: string): (n: nat)
    ensures n <= |line|
  {
    if line != "" && line[0] == '[' then 1 + Brackets(line[1..]) else 0
  }

  /** What parseSLine takes for the name; if there are too few closing brackets, it is all the rest. */
  function SectionName(line: string): string {
    var depth := Brackets(line);
    if |line| < 2 * depth then line[depth..] else line[depth..|line| - depth]
  }

  function Repeat(c: char, n: nat): (s: string)
    ensures |s| == n && forall i | 0 <= i < n :: s[i] == c
  {
    if n == 0 then "" else [c] + Repeat(c, n - 1)
  }

  function SectionLine(name: string, depth: nat): string {
    Repeat('[', depth) + name + Repeat(']', depth)
  }

  lemma {:induction false} BracketsOf(depth: nat, rest: string)
    ensures Brackets(Repeat('[', depth) + rest) == depth + Brackets(rest)
  {
    if depth == 0 {
      assert Repeat('[', 0) + rest == rest;
    } else {
      BracketsOf(depth - 1, rest);
      assert (Repeat('[', depth) + rest)[1..] == Repeat('[', depth - 1) + rest;
    }
  }

  /** A section line gives back depth and name just if the name does not start with a bracket. */
  lemma SectionLineReads(name: string, depth: nat)
    ensures (Brackets(SectionLine(name, depth)) == depth && SectionName(SectionLine(name, depth)) == name) <==>
      (name == "" || name[0] != '[')
  {
    var line := SectionLine(name, depth);
    assert line == Repeat('[', depth) + (name + Repeat(']', depth));
    BracketsOf(depth, name + Repeat(']', depth));
    if name == "" {
      assert name + Repeat(']', depth) == Repeat(']', depth);
    }
    if name == "" || name[0] != '[' {
      assert line[depth..|line| - depth] == name;
    }
  }

  /** Where the first equals sign is, or the length. */
  function EqualsAt(s: string): (n: nat)
    ensures n <= |s| && (n < |s| ==> s[n] == '=')
    ensures forall i | 0 <= i < n :: s[i] != '='
  {
    if s == "" || s[0] == '=' then 0 else 1 + EqualsAt(s[1..])
  }

  lemma {:induction false} KeyReads(key: string, value: string)
    requires forall i | 0 <= i < |key| :: key[i] != '='
    ensures EqualsAt(key + "=" + value) == |key|
  {
    if key != "" {
      KeyReads(key[1..], value);
      assert (key + "=" + value)[1..] == key[1..] + "=" + value;
    }
  }
}
