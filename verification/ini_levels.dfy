/** The levels of ini/ini-parser/ini.hpp as values: a level is named by its number in the order in which
    levels were created, and so are its parent and its sections. */
module IniLevels {
  import opened IniText
  import opened Verdicts

  datatype Option<T> = None | Some(value: T)

  datatype Level = Level(
    values: map<string, string>, sections: map<string, nat>,
    orderedValues: seq<string>, orderedSections: seq<string>,
    parent: Option<nat>, depth: nat)

  type Levels = seq<Level>

  datatype Fault = WrongDepth | DuplicateSection | NoEquals | DuplicateKey

  /** The levels made so far and the one that lines go to, or an exception. */
  datatype State = State(levels: Levels, cur: nat) | Thrown(fault: Fault)

  // ----- What the levels stand for ------------------------------------------------------------

  datatype Entry = Entry(key: string, value: string)

  datatype Section = Section(name: string, tree: Tree)

  /** A level with its values and sections in the order of the file. */
  datatype Tree = Tree(values: seq<Entry>, sections: seq<Section>)

  predicate IsChild(levels: Levels, i: nat, name: string) {
    && i < |levels| && name in levels[i].sections
    && i < levels[i].sections[name] < |levels|
    && levels[levels[i].sections[name]].parent == Some(i)
  }

  predicate Different(names: seq<string>) {
    forall i, j :: 0 <= i < j < |names| ==> names[i] != names[j]
  }

  /** The lists of a level have the keys of its maps, each once; its sections are levels made later, which
      have it for their parent; and its own parent is one less deep. */
  ghost predicate LevelStands(levels: Levels, i: nat) {
    && i < |levels|
    && (forall k :: k in levels[i].orderedValues <==> k in levels[i].values)
    && (forall k :: k in levels[i].orderedSections <==> k in levels[i].sections)
    && Different(levels[i].orderedValues) && Different(levels[i].orderedSections)
    && (forall name {:trigger IsChild(levels, i, name)} :: name in levels[i].sections ==> IsChild(levels, i, name))
    && match levels[i].parent
       case None => i == 0 && levels[i].depth == 0
       case Some(p) => p < i && levels[i].depth == levels[p].depth + 1
  }

  ghost function Soundness(levels: Levels): Verdict {
    if |levels| > 0 && forall i: nat {:trigger LevelStands(levels, i)} :: i < |levels| ==> LevelStands(levels, i)
    then Sound else Broken
  }

  function EntriesOf(values: map<string, string>, keys: seq<string>): (r: seq<Entry>)
    requires forall k :: k in keys ==> k in values
    ensures |r| == |keys|
  {
    if keys == [] then [] else [Entry(keys[0], values[keys[0]])] + EntriesOf(values, keys[1..])
  }

  /** Section number n of level i; there always is one if the levels are sound. */
  function Child(levels: Levels, i: nat, n: nat): (j: nat)
    requires i < |levels| && n < |levels[i].orderedSections|
    ensures i < j < |levels| || j == |levels|
  {
    var name := levels[i].orderedSections[n];
    if IsChild(levels, i, name) then levels[i].sections[name] else |levels|
  }

  function Values(level: Level): seq<Entry> {
    if forall k :: k in level.orderedValues ==> k in level.values
    then EntriesOf(level.values, level.orderedValues) else []
  }

  function TreeOf(levels: Levels, i: nat): Tree
    decreases |levels| - i, 1, 0
  {
    if i >= |levels| then Tree([], []) else Tree(Values(levels[i]), SectionsOf(levels, i, |levels[i].orderedSections|))
  }

  /** The first n sections of level i. */
  function SectionsOf(levels: Levels, i: nat, n: nat): (r: seq<Section>)
    requires i < |levels| && n <= |levels[i].orderedSections|
    ensures |r| == n
    decreases |levels| - i, 0, n
  {
    if n == 0 then []
    else
      SectionsOf(levels, i, n - 1)
      + [Section(levels[i].orderedSections[n - 1], TreeOf(levels, Child(levels, i, n - 1)))]
  }

  lemma {:induction false} EntryAt(values: map<string, string>, keys: seq<string>, i: nat)
    requires (forall k :: k in keys ==> k in values) && i < |keys|
    ensures EntriesOf(values, keys)[i] == Entry(keys[i], values[keys[i]])
    decreases i
  {
    if i > 0 {
      EntryAt(values, keys[1..], i - 1);
    }
  }

  lemma {:induction false} SectionAt(levels: Levels, j: nat, n: nat, i: nat)
    requires j < |levels| && i < n <= |levels[j].orderedSections|
    ensures SectionsOf(levels, j, n)[i] == Section(levels[j].orderedSections[i], TreeOf(levels, Child(levels, j, i)))
    decreases n
  {
    if i < n - 1 {
      SectionAt(levels, j, n - 1, i);
    }
  }

  // ----- Parsing ------------------------------------------------------------------------------

  /** A level that has just been constructed in a section of p. */
  function NewLevel(p: nat, depth: nat): Level {
    Level(map[], map[], [], [], Some(p), depth)
  }

  /** Following parent n times. */
  function Up(levels: Levels, i: nat, n: nat): (j: nat)
    requires i < |levels|
    ensures j < |levels|
    decreases n
  {
    if n == 0 || levels[i].parent.None? || levels[i].parent.value >= |levels| then i
    else Up(levels, levels[i].parent.value, n - 1)
  }

  /** A section line in level `cur`. */
  function AfterSection(levels: Levels, cur: nat, name: string, depth: nat): State
    requires cur < |levels|
  {
    var l := levels[cur];
    if depth > l.depth + 1 then Thrown(WrongDepth)
    else
      var p := Up(levels, cur, l.depth + 1 - depth);
      if name in levels[p].sections then Thrown(DuplicateSection)
      else Opened(levels, p, name, depth)
  }

  function Opened(levels: Levels, p: nat, name: string, depth: nat): State
    requires p < |levels|
  {
    var parent := levels[p].(
      sections := levels[p].sections[name := |levels|], orderedSections := levels[p].orderedSections + [name]);
    State(levels[p := parent] + [NewLevel(p, depth)], |levels|)
  }

  /** A line with a key in level `cur`. */
  function AfterEntry(levels: Levels, cur: nat, key: string, value: string): State
    requires cur < |levels|
  {
    var l := levels[cur];
    if key in l.values then Thrown(DuplicateKey)
    else State(levels[cur := l.(values := l.values[key := value], orderedValues := l.orderedValues + [key])], cur)
  }

  /** One line. */
  function AfterLineOf(levels: Levels, cur: nat, raw: string): State
    requires cur < |levels|
  {
    var line := Trimmed(raw);
    if raw != "" && (raw[0] == '#' || raw[0] == ';') then State(levels, cur)
    else if line == "" then State(levels, cur)
    else if line[0] == '[' then AfterSection(levels, cur, SectionName(line), Brackets(line))
    else
      var n := EqualsAt(line);
      if n == |line| then Thrown(NoEquals)
      else AfterEntry(levels, cur, Trimmed(line[..n]), Trimmed(line[n + 1..]))
  }

  /** All lines of a text. */
  function Parsed(levels: Levels, cur: nat, text: string): State
    requires cur < |levels|
    decreases |text|
  {
    if text == "" then State(levels, cur)
    else
      match AfterLineOf(levels, cur, text[..LineEnd(text)])
      case Thrown(f) => Thrown(f)
      case State(more, c) => if c < |more| then Parsed(more, c, AfterLine(text)) else Thrown(WrongDepth)
  }

  /** The same, of lines. */
  function ParsedLines(levels: Levels, cur: nat, lines: seq<string>): State
    requires cur < |levels|
    decreases |lines|
  {
    if lines == [] then State(levels, cur)
    else
      match AfterLineOf(levels, cur, lines[0])
      case Thrown(f) => Thrown(f)
      case State(more, c) => if c < |more| then ParsedLines(more, c, lines[1..]) else Thrown(WrongDepth)
  }

  /** The lines of a text that are not empty. */
  function Lines(text: string): (lines: seq<string>)
    ensures forall i | 0 <= i < |lines| :: OneLine(lines[i])
    decreases |text|
  {
    if text == "" then []
    else
      var line := text[..LineEnd(text)];
      (if line == "" then [] else [line]) + Lines(AfterLine(text))
  }

  /** Empty lines do not matter. */
  lemma {:induction false} ParsedByLines(levels: Levels, cur: nat, text: string)
    requires cur < |levels|
    ensures Parsed(levels, cur, text) == ParsedLines(levels, cur, Lines(text))
    decreases |text|
  {
    if text != "" {
      var line := text[..LineEnd(text)];
      var s := AfterLineOf(levels, cur, line);
      if line == "" {
        assert s == State(levels, cur) && Lines(text) == Lines(AfterLine(text));
        ParsedByLines(levels, cur, AfterLine(text));
      } else {
        assert Lines(text)[0] == line && Lines(text)[1..] == Lines(AfterLine(text));
        if s.State? && s.cur < |s.levels| {
          ParsedByLines(s.levels, s.cur, AfterLine(text));
        }
      }
    }
  }

  /** The top level. */
  function Top(): Levels {
    [Level(map[], map[], [], [], None, 0)]
  }

  // ----- Every run keeps the levels sound -----------------------------------------------------

  lemma TopIsSound()
    ensures Soundness(Top()).Sound?
  {
    assert LevelStands(Top(), 0);
  }

  /** Climbing by n levels. */
  lemma {:induction false} Climbs(levels: Levels, i: nat, n: nat)
    requires Soundness(levels).Sound? && i < |levels| && n <= levels[i].depth
    ensures Up(levels, i, n) <= i && levels[Up(levels, i, n)].depth == levels[i].depth - n
    decreases n
  {
    assert LevelStands(levels, i);
    if n > 0 {
      Climbs(levels, levels[i].parent.value, n - 1);
    }
  }

  lemma OpenedIsSound(levels: Levels, p: nat, name: string)
    requires Soundness(levels).Sound? && p < |levels| && name !in levels[p].sections
    ensures var s := Opened(levels, p, name, levels[p].depth + 1); Soundness(s.levels).Sound? && s.cur < |s.levels|
  {
    var s := Opened(levels, p, name, levels[p].depth + 1);
    var more := s.levels;
    assert LevelStands(levels, p);
    forall i: nat | i < |more| ensures LevelStands(more, i) {
      if i < |levels| {
        assert LevelStands(levels, i);
        forall n | n in more[i].sections ensures IsChild(more, i, n) {
          assert (i == p && n == name) || IsChild(levels, i, n);
        }
      }
    }
  }

  lemma EntryIsSound(levels: Levels, cur: nat, key: string, value: string)
    requires Soundness(levels).Sound? && cur < |levels| && key !in levels[cur].values
    ensures Soundness(AfterEntry(levels, cur, key, value).levels).Sound?
  {
    var more := AfterEntry(levels, cur, key, value).levels;
    assert LevelStands(levels, cur);
    forall i: nat | i < |more| ensures LevelStands(more, i) {
      assert LevelStands(levels, i);
      forall n | n in more[i].sections ensures IsChild(more, i, n) {
        assert IsChild(levels, i, n);
      }
    }
  }

  /** After any line, of whatever text, the levels are sound, or there was an exception. */
  lemma LineIsSound(levels: Levels, cur: nat, raw: string)
    requires Soundness(levels).Sound? && cur < |levels|
    ensures var s := AfterLineOf(levels, cur, raw); s.State? ==> Soundness(s.levels).Sound? && s.cur < |s.levels|
  {
    var line := Trimmed(raw);
    var s := AfterLineOf(levels, cur, raw);
    if s.State? && s.levels != levels {
      if line[0] == '[' {
        Climbs(levels, cur, levels[cur].depth + 1 - Brackets(line));
        OpenedIsSound(levels, Up(levels, cur, levels[cur].depth + 1 - Brackets(line)), SectionName(line));
      } else {
        var n := EqualsAt(line);
        EntryIsSound(levels, cur, Trimmed(line[..n]), Trimmed(line[n + 1..]));
      }
    }
  }

  /** Whatever is parsed, the levels are sound. */
  lemma {:induction false} ParsedIsSound(levels: Levels, cur: nat, text: string)
    requires Soundness(levels).Sound? && cur < |levels|
    ensures var s := Parsed(levels, cur, text); s.State? ==> Soundness(s.levels).Sound? && s.cur < |s.levels|
    decreases |text|
  {
    if text != "" {
      LineIsSound(levels, cur, text[..LineEnd(text)]);
      var s := AfterLineOf(levels, cur, text[..LineEnd(text)]);
      if s.State? {
        ParsedIsSound(s.levels, s.cur, AfterLine(text));
      }
    }
  }
}
