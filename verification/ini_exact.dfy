/** Exactly which trees come back when what dump has printed of them is parsed. */
module IniExact {
  import opened Sequences
  import opened IniText
  import opened IniLevels
  import opened IniDump
  import opened IniRoundTrip
  import opened Verdicts

  // ----- What parsing makes -------------------------------------------------------------------

  predicate ProperEntry(e: Entry) {
    && OneLine(e.key) && NoBlankEnds(e.key) && (forall i | 0 <= i < |e.key| :: e.key[i] != '=')
    && (e.key == "" || e.key[0] != '[')
    && OneLine(e.value) && NoBlankEnds(e.value)
  }

  /** A key that begins a comment line when it is dumped. */
  predicate IsComment(line: string) {
    line != "" && (line[0] == '#' || line[0] == ';')
  }

  ghost predicate ProperLevel(levels: Levels, i: nat) {
    && i < |levels|
    && (forall e {:trigger ProperEntry(e)} | e in Values(levels[i]) :: ProperEntry(e))
    && (forall name {:trigger GoodName(name)} | name in levels[i].orderedSections :: GoodName(name))
  }

  ghost predicate Proper(levels: Levels) {
    forall i: nat {:trigger ProperLevel(levels, i)} | i < |levels| :: ProperLevel(levels, i)
  }

  lemma {:induction false} TrimLeftEnds(s: string)
    ensures var r := TrimLeft(s); (r == "" || !IsBlank(r[0])) && exists i :: 0 <= i <= |s| && r == s[i..]
    decreases s
  {
    if s != "" && IsBlank(s[0]) {
      TrimLeftEnds(s[1..]);
      var i :| 0 <= i <= |s[1..]| && TrimLeft(s[1..]) == s[1..][i..];
      assert s[1..][i..] == s[i + 1..];
    } else {
      assert s[0..] == s;
    }
  }

  /** What trim leaves is a part of the text without blanks at its ends. */
  lemma TrimmedIsPart(s: string)
    ensures NoBlankEnds(Trimmed(s))
    ensures exists i, j :: 0 <= i <= j <= |s| && Trimmed(s) == s[i..j]
  {
    TrimLeftEnds(s);
    var i :| 0 <= i <= |s| && TrimLeft(s) == s[i..];
    TrimmedEnds(s[i..]);
    var r := Trimmed(s);
    assert r == s[i..][..|r|] == s[i..i + |r|];
  }

  /** If the text does not begin with a blank, trim leaves its beginning. */
  lemma TrimmedBegin(s: string)
    requires s != "" && !IsBlank(s[0])
    ensures Trimmed(s) != "" && Trimmed(s)[0] == s[0]
    decreases |s|
  {
    if IsBlank(s[|s| - 1]) {
      TrimmedBegin(s[..|s| - 1]);
    }
  }

  lemma TrimmedIn(s: string)
    ensures forall c | c in Trimmed(s) :: c in s
  {
    TrimmedIsPart(s);
    var i, j :| 0 <= i <= j <= |s| && Trimmed(s) == s[i..j];
    assert forall k | i <= k < j :: s[i..j][k - i] == s[k];
  }

  lemma EntryIsProper(raw: string)
    requires OneLine(raw)
    requires var line := Trimmed(raw); line != "" && line[0] != '[' && EqualsAt(line) < |line|
    ensures var line := Trimmed(raw); var n := EqualsAt(line);
      ProperEntry(Entry(Trimmed(line[..n]), Trimmed(line[n + 1..])))
  {
    var line := Trimmed(raw);
    var n := EqualsAt(line);
    TrimmedIsPart(raw);
    KeyIsProper(line, n);
    TrimmedIsPart(line[n + 1..]);
    TrimmedIn(raw);
    TrimmedIn(line[n + 1..]);
    assert OneLine(line) && OneLine(Trimmed(line[n + 1..]));
  }

  lemma KeyIsProper(line: string, n: nat)
    requires line != "" && !IsBlank(line[0]) && line[0] != '[' && n == EqualsAt(line) < |line|
    ensures var key := Trimmed(line[..n]);
      && NoBlankEnds(key) && (forall i | 0 <= i < |key| :: key[i] != '=') && (key == "" || key[0] != '[')
      && (OneLine(line) ==> OneLine(key))
  {
    var key := Trimmed(line[..n]);
    TrimmedIsPart(line[..n]);
    TrimmedIn(line[..n]);
    assert forall c | c in line[..n] :: c != '=' && c in line;
    if n > 0 {
      TrimmedBegin(line[..n]);
    }
  }

  lemma NameIsGood(raw: string)
    requires OneLine(raw)
    ensures GoodName(SectionName(Trimmed(raw)))
  {
    var line := Trimmed(raw);
    TrimmedIsPart(raw);
    BracketsEnd(line);
  }

  lemma {:induction false} BracketsEnd(line: string)
    ensures Brackets(line) < |line| ==> line[Brackets(line)] != '['
    decreases line
  {
    if line != "" && line[0] == '[' {
      BracketsEnd(line[1..]);
    }
  }

  lemma OpenedIsProper(levels: Levels, p: nat, name: string, depth: nat)
    requires Proper(levels) && p < |levels| && GoodName(name)
    ensures Proper(Opened(levels, p, name, depth).levels)
  {
    var more := Opened(levels, p, name, depth).levels;
    assert ProperLevel(levels, p);
    forall i: nat | i < |more| ensures ProperLevel(more, i) {
      if i < |levels| {
        assert ProperLevel(levels, i);
      }
    }
  }

  lemma EntryKeepsProper(levels: Levels, cur: nat, key: string, value: string)
    requires Soundness(levels).Sound? && Proper(levels) && cur < |levels| && key !in levels[cur].values
    requires ProperEntry(Entry(key, value))
    ensures Proper(AfterEntry(levels, cur, key, value).levels)
  {
    var l := levels[cur];
    var more := AfterEntry(levels, cur, key, value).levels;
    assert LevelStands(levels, cur);
    OneMoreEntry(l.values, l.orderedValues, Entry(key, value));
    forall i: nat | i < |more| ensures ProperLevel(more, i) {
      assert ProperLevel(levels, i);
    }
  }

  lemma LineKeepsProper(levels: Levels, cur: nat, raw: string)
    requires Soundness(levels).Sound? && Proper(levels) && cur < |levels| && OneLine(raw)
    ensures var s := AfterLineOf(levels, cur, raw); s.State? ==> Proper(s.levels)
  {
    var line := Trimmed(raw);
    if AfterLineOf(levels, cur, raw).State? && !IsComment(raw) && line != "" {
      if line[0] == '[' {
        var depth := Brackets(line);
        NameIsGood(raw);
        OpenedIsProper(levels, Up(levels, cur, levels[cur].depth + 1 - depth), SectionName(line), depth);
      } else {
        var n := EqualsAt(line);
        EntryIsProper(raw);
        EntryKeepsProper(levels, cur, Trimmed(line[..n]), Trimmed(line[n + 1..]));
      }
    }
  }

  // ----- How many levels and values there are -------------------------------------------------

  function Sum(ws: seq<nat>): nat {
    if ws == [] then 0 else Sum(ws[..|ws| - 1]) + ws[|ws| - 1]
  }

  lemma {:induction false} SumUpdate(ws: seq<nat>, p: nat, x: nat)
    requires p < |ws|
    ensures Sum(ws[p := ws[p] + x]) == Sum(ws) + x
    decreases |ws|
  {
    var k := |ws| - 1;
    if p < k {
      SumUpdate(ws[..k], p, x);
      assert ws[p := ws[p] + x][..k] == ws[..k][p := ws[..k][p] + x];
    } else {
      assert ws[p := ws[p] + x][..k] == ws[..k];
    }
  }

  lemma SumMore(ws: seq<nat>, x: nat)
    ensures Sum(ws + [x]) == Sum(ws) + x
  {
    assert (ws + [x])[..|ws|] == ws;
  }

  /** The weights of all levels in the tree of level i. */
  function Weigh(levels: Levels, i: nat, ws: seq<nat>): nat
    requires |ws| == |levels|
    decreases |levels| - i, 1, 0
  {
    if i >= |levels| then 0 else ws[i] + WeighSections(levels, i, |levels[i].orderedSections|, ws)
  }

  function WeighSections(levels: Levels, i: nat, n: nat, ws: seq<nat>): nat
    requires |ws| == |levels| && i < |levels| && n <= |levels[i].orderedSections|
    decreases |levels| - i, 0, n
  {
    if n == 0 then 0
    else WeighSections(levels, i, n - 1, ws) + Weigh(levels, Child(levels, i, n - 1), ws)
  }

  /** Every level is in the tree of the top, and once: whatever the levels weigh, the tree weighs as much. */
  ghost function Counted(levels: Levels): Verdict {
    if |levels| > 0 && forall ws {:trigger CountedBy(levels, ws)} | |ws| == |levels| :: CountedBy(levels, ws)
    then Sound else Broken
  }

  predicate CountedBy(levels: Levels, ws: seq<nat>)
    requires |ws| == |levels|
  {
    Weigh(levels, 0, ws) == Sum(ws)
  }

  lemma TopIsCounted()
    ensures Counted(Top()).Sound?
  {
    forall ws: seq<nat> | |ws| == 1 ensures CountedBy(Top(), ws) {
      assert ws[..0] == [];
    }
  }

  /** A level that differs in nothing but its values. */
  predicate SameShape(l: Level, m: Level) {
    l.sections == m.sections && l.orderedSections == m.orderedSections && l.parent == m.parent
  }

  lemma {:induction false} ShapeWeighs(levels: Levels, more: Levels, i: nat, ws: seq<nat>)
    requires |levels| == |more| == |ws| && forall k {:trigger levels[k]} | 0 <= k < |levels| ::
      SameShape(levels[k], more[k])
    ensures Weigh(more, i, ws) == Weigh(levels, i, ws)
    decreases |levels| - i, 1, 0
  {
    if i < |levels| {
      assert SameShape(levels[i], more[i]);
      ShapeWeighsSections(levels, more, i, |levels[i].orderedSections|, ws);
    }
  }

  lemma {:induction false} ShapeWeighsSections(levels: Levels, more: Levels, i: nat, n: nat, ws: seq<nat>)
    requires |levels| == |more| == |ws| && forall k {:trigger levels[k]} | 0 <= k < |levels| ::
      SameShape(levels[k], more[k])
    requires i < |levels| && n <= |levels[i].orderedSections| == |more[i].orderedSections|
    ensures WeighSections(more, i, n, ws) == WeighSections(levels, i, n, ws)
    decreases |levels| - i, 0, n
  {
    if n > 0 {
      ShapeWeighsSections(levels, more, i, n - 1, ws);
      var name := levels[i].orderedSections[n - 1];
      assert SameShape(levels[i], more[i]);
      if name in levels[i].sections && i < levels[i].sections[name] < |levels| {
        assert SameShape(levels[levels[i].sections[name]], more[levels[i].sections[name]]);
      }
      assert Child(more, i, n - 1) == Child(levels, i, n - 1);
      ShapeWeighs(levels, more, Child(levels, i, n - 1), ws);
    }
  }

  lemma EntryIsCounted(levels: Levels, cur: nat, key: string, value: string)
    requires Counted(levels).Sound? && cur < |levels| && key !in levels[cur].values
    ensures Counted(AfterEntry(levels, cur, key, value).levels).Sound?
  {
    var more := AfterEntry(levels, cur, key, value).levels;
    forall ws: seq<nat> | |ws| == |more| ensures CountedBy(more, ws) {
      assert CountedBy(levels, ws);
      ShapeWeighs(levels, more, 0, ws);
    }
  }

  /** A new level weighs in the trees that its parent is in. */
  lemma {:induction false} OpenedWeighs(levels: Levels, p: nat, name: string, j: nat, ws: seq<nat>, x: nat)
    requires Soundness(levels).Sound? && p < |levels| && name !in levels[p].sections && j < |levels| == |ws|
    ensures var more := Opened(levels, p, name, levels[p].depth + 1).levels;
      Weigh(more, j, ws + [x]) == Weigh(levels, j, ws[p := ws[p] + x])
    decreases |levels| - j, 1, 0
  {
    var more := Opened(levels, p, name, levels[p].depth + 1).levels;
    var n := |levels[j].orderedSections|;
    OpenedWeighsSections(levels, p, name, j, n, ws, x);
    if j == p {
      OpenedIsSound(levels, p, name);
      assert LevelStands(more, p) && IsChild(more, p, name);
      assert Child(more, p, n) == |levels|;
      assert Weigh(more, |levels|, ws + [x]) == x;
    }
  }

  lemma {:induction false} OpenedWeighsSections(
      levels: Levels, p: nat, name: string, j: nat, n: nat, ws: seq<nat>, x: nat)
    requires Soundness(levels).Sound? && p < |levels| && name !in levels[p].sections && j < |levels| == |ws|
    requires n <= |levels[j].orderedSections|
    ensures var more := Opened(levels, p, name, levels[p].depth + 1).levels;
      WeighSections(more, j, n, ws + [x]) == WeighSections(levels, j, n, ws[p := ws[p] + x])
    decreases |levels| - j, 0, n
  {
    if n > 0 {
      var more := Opened(levels, p, name, levels[p].depth + 1).levels;
      OpenedWeighsSections(levels, p, name, j, n - 1, ws, x);
      assert LevelStands(levels, j);
      var child := levels[j].orderedSections[n - 1];
      assert IsChild(levels, j, child) && more[j].orderedSections[n - 1] == child && IsChild(more, j, child);
      OpenedWeighs(levels, p, name, Child(levels, j, n - 1), ws, x);
    }
  }

  lemma OpenedIsCounted(levels: Levels, p: nat, name: string)
    requires Soundness(levels).Sound? && Counted(levels).Sound? && p < |levels| && name !in levels[p].sections
    ensures Counted(Opened(levels, p, name, levels[p].depth + 1).levels).Sound?
  {
    var more := Opened(levels, p, name, levels[p].depth + 1).levels;
    forall ws: seq<nat> | |ws| == |more| ensures CountedBy(more, ws) {
      var before, x := ws[..|levels|], ws[|levels|];
      assert ws == before + [x];
      OpenedWeighs(levels, p, name, 0, before, x);
      assert CountedBy(levels, before[p := before[p] + x]);
      SumUpdate(before, p, x);
      SumMore(before, x);
    }
  }

  /** What each level counts for: itself and its values. */
  function Sizes(levels: Levels): (ws: seq<nat>)
    ensures |ws| == |levels| && forall i | 0 <= i < |ws| :: ws[i] == 1 + |levels[i].orderedValues|
  {
    seq(|levels|, i requires 0 <= i < |levels| => 1 + |levels[i].orderedValues|)
  }

  lemma {:induction false} TreeSize(levels: Levels, i: nat)
    requires Soundness(levels).Sound? && i < |levels|
    ensures Weigh(levels, i, Sizes(levels)) == 1 + Items(TreeOf(levels, i))
    decreases |levels| - i, 1, 0
  {
    assert LevelStands(levels, i);
    SectionsSize(levels, i, |levels[i].orderedSections|);
  }

  lemma {:induction false} SectionsSize(levels: Levels, i: nat, n: nat)
    requires Soundness(levels).Sound? && i < |levels| && n <= |levels[i].orderedSections|
    ensures WeighSections(levels, i, n, Sizes(levels)) == SectionsItems(SectionsOf(levels, i, n))
    decreases |levels| - i, 0, n
  {
    if n > 0 {
      assert LevelStands(levels, i);
      assert IsChild(levels, i, levels[i].orderedSections[n - 1]);
      SectionsSize(levels, i, n - 1);
      TreeSize(levels, Child(levels, i, n - 1));
      ItemsConcat(SectionsOf(levels, i, n - 1), SectionsOf(levels, i, n)[n - 1]);
    }
  }

  lemma {:induction false} ItemsConcat(sections: seq<Section>, s: Section)
    ensures SectionsItems(sections + [s]) == SectionsItems(sections) + 1 + Items(s.tree)
    decreases sections
  {
    if sections == [] {
      assert [] + [s] == [s] && [s][1..] == [];
    } else {
      ItemsConcat(sections[1..], s);
      assert (sections + [s])[1..] == sections[1..] + [s];
    }
  }

  // ----- Lines --------------------------------------------------------------------------------

  function Effective(lines: seq<string>): (n: nat)
    ensures n <= |lines|
  {
    if lines == [] then 0 else (if IsComment(lines[0]) then 0 else 1) + Effective(lines[1..])
  }

  /** What holds of the levels that parsing makes. */
  ghost function Made(levels: Levels): Verdict {
    if Soundness(levels).Sound? && Counted(levels).Sound? && Proper(levels) then Sound else Broken
  }

  lemma EntrySizes(levels: Levels, cur: nat, key: string, value: string)
    requires cur < |levels| && key !in levels[cur].values
    ensures Sum(Sizes(AfterEntry(levels, cur, key, value).levels)) == Sum(Sizes(levels)) + 1
  {
    var ws := Sizes(levels);
    SumUpdate(ws, cur, 1);
    assert Sizes(AfterEntry(levels, cur, key, value).levels) == ws[cur := ws[cur] + 1];
  }

  lemma OpenedSizes(levels: Levels, p: nat, name: string, depth: nat)
    requires p < |levels|
    ensures Sum(Sizes(Opened(levels, p, name, depth).levels)) == Sum(Sizes(levels)) + 1
  {
    SumMore(Sizes(levels), 1);
    assert Sizes(Opened(levels, p, name, depth).levels) == Sizes(levels) + [1];
  }

  /** A line makes at most one value or section, and a comment none. */
  lemma LineMakes(levels: Levels, cur: nat, raw: string)
    requires Made(levels).Sound? && cur < |levels| && OneLine(raw)
    ensures var s := AfterLineOf(levels, cur, raw);
      s.State? ==>
        && Made(s.levels).Sound? && s.cur < |s.levels|
        && Sum(Sizes(s.levels)) <= Sum(Sizes(levels)) + (if IsComment(raw) then 0 else 1)
  {
    var s := AfterLineOf(levels, cur, raw);
    var line := Trimmed(raw);
    if s.State? {
      LineIsSound(levels, cur, raw);
      LineKeepsProper(levels, cur, raw);
      if !IsComment(raw) && line != "" {
        if line[0] == '[' {
          var n := levels[cur].depth + 1 - Brackets(line);
          var p := Up(levels, cur, n);
          Climbs(levels, cur, n);
          OpenedIsCounted(levels, p, SectionName(line));
          OpenedSizes(levels, p, SectionName(line), Brackets(line));
        } else {
          var n := EqualsAt(line);
          EntryIsCounted(levels, cur, Trimmed(line[..n]), Trimmed(line[n + 1..]));
          EntrySizes(levels, cur, Trimmed(line[..n]), Trimmed(line[n + 1..]));
        }
      }
    }
  }

  lemma {:induction false} LinesMake(levels: Levels, cur: nat, lines: seq<string>)
    requires Made(levels).Sound? && cur < |levels| && forall i {:trigger lines[i]} | 0 <= i < |lines| ::
      OneLine(lines[i])
    ensures var s := ParsedLines(levels, cur, lines);
      s.State? ==>
        && Made(s.levels).Sound? && s.cur < |s.levels|
        && Sum(Sizes(s.levels)) <= Sum(Sizes(levels)) + Effective(lines)
    decreases |lines|
  {
    if lines != [] {
      LineMakes(levels, cur, lines[0]);
      var s := AfterLineOf(levels, cur, lines[0]);
      if s.State? {
        LinesMake(s.levels, s.cur, lines[1..]);
      }
    }
  }

  lemma TopIsMade()
    ensures Made(Top()).Sound? && Sum(Sizes(Top())) == 1
  {
    TopIsSound();
    TopIsCounted();
    assert Values(Top()[0]) == [];
    assert ProperLevel(Top(), 0);
    assert Sizes(Top()) == [1] && [1][..0] == [];
  }

  /** The tree of a text that has been parsed has at most one value or section for every line. */
  lemma TextMakes(text: string)
    ensures var s := Parsed(Top(), 0, text);
      s.State? ==> Made(s.levels).Sound? && Items(TreeOf(s.levels, 0)) <= Effective(Lines(text))
  {
    var s := Parsed(Top(), 0, text);
    TopIsMade();
    ParsedByLines(Top(), 0, text);
    LinesMake(Top(), 0, Lines(text));
    if s.State? {
      TreeSize(s.levels, 0);
      assert CountedBy(s.levels, Sizes(s.levels));
    }
  }

  // ----- Which trees come back ----------------------------------------------------------------

  /** What parsing makes of any text. */
  predicate ProperTree(t: Tree) {
    && (forall i {:trigger t.values[i]} | 0 <= i < |t.values| :: ProperEntry(t.values[i]))
    && (forall i, j :: 0 <= i < j < |t.values| ==> t.values[i].key != t.values[j].key)
    && (forall i {:trigger t.sections[i]} | 0 <= i < |t.sections| ::
          GoodName(t.sections[i].name) && ProperTree(t.sections[i].tree))
    && (forall i, j :: 0 <= i < j < |t.sections| ==> t.sections[i].name != t.sections[j].name)
  }

  /** No key begins a comment line when it is dumped. */
  predicate NoComments(t: Tree) {
    && (forall i {:trigger t.values[i]} | 0 <= i < |t.values| :: !IsComment(t.values[i].key))
    && (forall i {:trigger t.sections[i]} | 0 <= i < |t.sections| :: NoComments(t.sections[i].tree))
  }

  lemma {:induction false} GoodWhen(t: Tree)
    ensures Good(t) <==> ProperTree(t) && NoComments(t)
    decreases t
  {
    forall i {:trigger t.sections[i]} | 0 <= i < |t.sections|
      ensures Good(t.sections[i].tree) <==> ProperTree(t.sections[i].tree) && NoComments(t.sections[i].tree)
    {
      GoodWhen(t.sections[i].tree);
    }
    forall i {:trigger t.values[i]} | 0 <= i < |t.values|
      ensures GoodEntry(t.values[i]) <==> ProperEntry(t.values[i]) && !IsComment(t.values[i].key)
    {
    }
  }

  // ----- Trees of levels ----------------------------------------------------------------------

  lemma ValuesAreProper(levels: Levels, i: nat)
    requires Soundness(levels).Sound? && Proper(levels) && i < |levels|
    ensures var es := TreeOf(levels, i).values;
      && (forall k {:trigger es[k]} | 0 <= k < |es| :: ProperEntry(es[k]))
      && (forall j, k :: 0 <= j < k < |es| ==> es[j].key != es[k].key)
  {
    assert LevelStands(levels, i) && ProperLevel(levels, i);
    var l := levels[i];
    var es := Values(l);
    forall k | 0 <= k < |es| ensures es[k].key == l.orderedValues[k] && ProperEntry(es[k]) {
      EntryAt(l.values, l.orderedValues, k);
      assert es[k] in es;
    }
  }

  lemma {:induction false} TreeIsProper(levels: Levels, i: nat)
    requires Soundness(levels).Sound? && Proper(levels) && i < |levels|
    ensures ProperTree(TreeOf(levels, i))
    decreases |levels| - i
  {
    assert LevelStands(levels, i) && ProperLevel(levels, i);
    ValuesAreProper(levels, i);
    var names := levels[i].orderedSections;
    var sections := TreeOf(levels, i).sections;
    forall k | 0 <= k < |sections|
      ensures sections[k].name == names[k] && GoodName(sections[k].name) && ProperTree(sections[k].tree)
    {
      SectionAt(levels, i, |names|, k);
      assert names[k] in names && IsChild(levels, i, names[k]);
      TreeIsProper(levels, Child(levels, i, k));
    }
  }

  lemma {:induction false} ProperIsPlain(t: Tree)
    requires ProperTree(t)
    ensures Plain(t)
    decreases t
  {
    forall i {:trigger t.sections[i]} | 0 <= i < |t.sections| ensures Plain(t.sections[i].tree) {
      ProperIsPlain(t.sections[i].tree);
    }
  }

  // ----- Comments in a dump -------------------------------------------------------------------

  lemma {:induction false} EffectiveConcat(a: seq<string>, b: seq<string>)
    ensures Effective(a + b) == Effective(a) + Effective(b)
    decreases a
  {
    if a == [] {
      assert a + b == b;
    } else {
      EffectiveConcat(a[1..], b);
      assert (a + b)[1..] == a[1..] + b;
    }
  }

  lemma CommentLine(e: Entry)
    ensures IsComment(e.key) ==> IsComment(EntryLine(e))
  {
    assert e.key != "" ==> EntryLine(e)[0] == e.key[0];
  }

  lemma {:induction false} EntriesEffective(entries: seq<Entry>)
    requires Effective(EntryLines(entries)) == |EntryLines(entries)|
    ensures forall i {:trigger entries[i]} | 0 <= i < |entries| :: !IsComment(entries[i].key)
    decreases entries
  {
    if entries != [] {
      var lines := EntryLines(entries);
      assert lines[0] == EntryLine(entries[0]) && lines[1..] == EntryLines(entries[1..]);
      CommentLine(entries[0]);
      EntriesEffective(entries[1..]);
    }
  }

  lemma {:induction false} TreeEffective(t: Tree, depth: nat)
    requires Effective(EntryLines(t.values)) == |EntryLines(t.values)|
    requires Effective(SectionsLines(t.sections, depth)) == |SectionsLines(t.sections, depth)|
    ensures NoComments(t)
    decreases t, 1
  {
    EntriesEffective(t.values);
    SectionsEffective(t.sections, depth);
  }

  lemma {:induction false} SectionsEffective(sections: seq<Section>, depth: nat)
    requires Effective(SectionsLines(sections, depth)) == |SectionsLines(sections, depth)|
    ensures forall i {:trigger sections[i]} | 0 <= i < |sections| :: NoComments(sections[i].tree)
    decreases sections, 0
  {
    if sections != [] {
      var s := sections[0];
      var heading, entries := [SectionLine(s.name, depth)], EntryLines(s.tree.values);
      EffectiveConcat(NodeLines(s.tree, depth, s.name), SectionsLines(sections[1..], depth));
      EffectiveConcat(heading + entries, SectionsLines(s.tree.sections, depth + 1));
      EffectiveConcat(heading, entries);
      TreeEffective(s.tree, depth + 1);
      SectionsEffective(sections[1..], depth);
    }
  }

  // ----- The exact condition ------------------------------------------------------------------

  /** A tree comes back when it is dumped and what dump has printed is parsed. */
  predicate ComesBack(t: Tree) {
    var s := Parsed(Top(), 0, Dumped(t, 0, ""));
    s.State? && TreeOf(s.levels, 0) == t
  }

  /** What comes back is what parsing can make, and every value and section of it has had a line of its own. */
  lemma BackIsGood(t: Tree)
    requires ComesBack(t)
    ensures Good(t) && TopApart(t)
  {
    var text := Dumped(t, 0, "");
    var s := Parsed(Top(), 0, text);
    TextMakes(text);
    TreeIsProper(s.levels, 0);
    ProperIsPlain(t);
    DumpLines(t);
    TopLinesCount(t);
    EffectiveConcat(EntryLines(t.values), SectionsLines(t.sections, 1));
    TreeEffective(t, 1);
    GoodWhen(t);
  }

  /** Exactly these trees come back, of all there are: no key, value or name has a line break, keys and values have
      no blanks at their ends, keys have no equals sign and begin with no bracket, number sign or semicolon, names
      begin with no bracket, keys and names differ within their section, and a section without a name has no values
      and is not printed behind another one. */
  lemma ComesBackWhen(t: Tree)
    ensures ComesBack(t) <==> Good(t) && TopApart(t)
  {
    if ComesBack(t) {
      BackIsGood(t);
    }
    if Good(t) && TopApart(t) {
      DumpedIsParsed(t);
    }
  }

  /** Of what parsing makes, only comments and sections without names can get lost. */
  lemma ParsedComesBackWhen(text: string)
    requires Parsed(Top(), 0, text).State?
    ensures var t := TreeOf(Parsed(Top(), 0, text).levels, 0);
      ComesBack(t) <==> NoComments(t) && TopApart(t)
  {
    var levels := Parsed(Top(), 0, text).levels;
    TextMakes(text);
    TreeIsProper(levels, 0);
    GoodWhen(TreeOf(levels, 0));
    ComesBackWhen(TreeOf(levels, 0));
  }

  // ----- Trees that do not come back ----------------------------------------------------------

  /** A tree with nothing but one empty section. */
  function OnlySection(name: string): Tree {
    Tree([], [Section(name, Tree([], []))])
  }

  lemma OnlyLine(name: string)
    ensures TopLines(OnlySection(name)) == [SectionLine(name, 1)]
  {
    var t := OnlySection(name);
    var inner := t.sections[0].tree;
    var lines := NodeLines(inner, 1, name);
    assert EntryLines(inner.values) == [] && SectionsLines(inner.sections, 2) == [];
    assert [SectionLine(name, 1)] + EntryLines(inner.values) == [SectionLine(name, 1)];
    assert lines == [SectionLine(name, 1)];
    assert t.sections[1..] == [] && SectionsLines(t.sections, 1) == lines + SectionsLines([], 1) == lines;
    assert EntryLines(t.values) == [] && TopLines(t) == [] + lines;
  }

  lemma BracketIsDeep(x: string)
    ensures AfterLineOf(Top(), 0, SectionLine("[" + x, 1)) == Thrown(WrongDepth)
  {
    var rest := "[" + x + Repeat(']', 1);
    var line := SectionLine("[" + x, 1);
    TrimKeeps(line);
    BracketsOf(1, rest);
    assert line == Repeat('[', 1) + rest && rest[0] == '[';
  }

  /** A name that begins with a bracket makes the section too deep. */
  lemma BracketThrows(x: string)
    requires OneLine(x)
    ensures Parsed(Top(), 0, Dumped(OnlySection("[" + x), 0, "")) == Thrown(WrongDepth)
  {
    var name := "[" + x;
    assert OneLine(name);
    DumpLines(OnlySection(name));
    OnlyLine(name);
    BracketIsDeep(x);
    ParsedByLines(Top(), 0, Dumped(OnlySection(name), 0, ""));
    assert TopApart(OnlySection(name)) by {
      assert OnlySection(name).sections[1..] == [];
    }
    var lines := [SectionLine(name, 1)];
    assert lines[0] == SectionLine(name, 1) && ParsedLines(Top(), 0, lines) == Thrown(WrongDepth);
  }

  /** The line of a key that begins like a comment, behind a blank. */
  lemma BlankLine(text: string)
    requires text == " #k=v"
    ensures AfterLineOf(Top(), 0, text) == AfterEntry(Top(), 0, "#k", "v")
  {
    var line := "#k=v";
    assert text[1..] == line && TrimLeft(line) == line && TrimLeft(text) == line;
    TrimKeeps(line);
    KeyReads("#k", "v");
    assert "#k" + "=" + "v" == line;
    TrimKeeps("#k");
    TrimKeeps("v");
    assert line[..2] == "#k" && line[3..] == "v";
  }

  /** A key that begins like a comment, which can be read behind a blank, is lost. */
  lemma CommentIsLost()
    ensures var s := Parsed(Top(), 0, " #k=v");
      s.State? && TreeOf(s.levels, 0) == Tree([Entry("#k", "v")], []) && !ComesBack(TreeOf(s.levels, 0))
  {
    var text := " #k=v";
    var s := AfterEntry(Top(), 0, "#k", "v");
    BlankLine(text);
    assert LineEnd(text) == |text| by { LastLine(text); }
    assert text[..|text|] == text;
    assert Parsed(Top(), 0, text) == s;
    var e := Entry("#k", "v");
    OneMoreEntry(map[], [], e);
    var t := TreeOf(s.levels, 0);
    assert t.values == [e] && t.sections == [];
    assert !GoodEntry(e);
    assert !GoodEntry(t.values[0]);
    ComesBackWhen(t);
  }

  /** A value of a section without a name becomes part of the name of a section. */
  lemma ValueIsSwallowed()
    ensures !ComesBack(Tree([], [Section("", Tree([Entry("k", "v")], []))]))
  {
    var section := Section("", Tree([Entry("k", "v")], []));
    assert !Apart(section.tree, section.name, false);
    ComesBackWhen(Tree([], [section]));
  }
}
