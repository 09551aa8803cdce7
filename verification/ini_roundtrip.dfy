/** Parsing what dump has printed rebuilds the levels. */
module IniRoundTrip {
  import opened Sequences
  import opened IniText
  import opened IniLevels
  import opened IniDump
  import opened Verdicts

  // ----- Which trees come back ----------------------------------------------------------------

  predicate NoBlankEnds(s: string) {
    s == "" || (!IsBlank(s[0]) && !IsBlank(s[|s| - 1]))
  }

  predicate GoodEntry(e: Entry) {
    && OneLine(e.key) && NoBlankEnds(e.key) && (forall i | 0 <= i < |e.key| :: e.key[i] != '=')
    && (e.key == "" || (e.key[0] != '[' && e.key[0] != '#' && e.key[0] != ';'))
    && OneLine(e.value) && NoBlankEnds(e.value)
  }

  predicate GoodName(name: string) {
    OneLine(name) && (name == "" || name[0] != '[')
  }

  predicate Good(t: Tree) {
    && GoodEntries(t.values)
    && (forall i :: 0 <= i < |t.sections| ==> GoodName(t.sections[i].name) && Good(t.sections[i].tree))
    && (forall i, j :: 0 <= i < j < |t.sections| ==> t.sections[i].name != t.sections[j].name)
  }

  // ----- The levels of a tree -----------------------------------------------------------------

  function WithEntries(level: Level, entries: seq<Entry>): Level
    decreases entries
  {
    if entries == [] then level else WithEntries(WithOneEntry(level, entries[0]), entries[1..])
  }

  function WithOneEntry(level: Level, e: Entry): Level {
    level.(values := level.values[e.key := e.value], orderedValues := level.orderedValues + [e.key])
  }

  /** p has one more section, the first of the new levels. */
  function Entered(levels: Levels, p: nat, s: Section): (r: Levels)
    requires p < |levels|
    ensures |r| == |levels| + 1
  {
    var c := |levels|;
    var entered := Opened(levels, p, s.name, levels[p].depth + 1).levels;
    entered[c := WithEntries(entered[c], s.tree.values)]
  }

  /** With a section of p, and all that is in it. */
  function WithSection(levels: Levels, p: nat, s: Section): (r: Levels)
    requires p < |levels|
    ensures |r| > |levels|
    decreases s, 1, 0
  {
    WithSections(Entered(levels, p, s), |levels|, s.tree.sections)
  }

  function WithSections(levels: Levels, p: nat, sections: seq<Section>): (r: Levels)
    requires p < |levels|
    ensures |r| >= |levels|
    decreases sections, 0
  {
    if sections == [] then levels else WithSections(WithSection(levels, p, sections[0]), p, sections[1..])
  }

  // ----- Lines --------------------------------------------------------------------------------

  lemma OneLineParsed(levels: Levels, cur: nat, line: string, rest: seq<string>)
    requires cur < |levels|
    ensures var s := AfterLineOf(levels, cur, line);
      s.State? && s.cur < |s.levels| ==>
        ParsedLines(levels, cur, [line] + rest) == ParsedLines(s.levels, s.cur, rest)
  {
    assert ([line] + rest)[1..] == rest;
  }

  lemma EntryLineParsed(levels: Levels, cur: nat, e: Entry)
    requires cur < |levels| && GoodEntry(e)
    ensures AfterLineOf(levels, cur, EntryLine(e)) == AfterEntry(levels, cur, e.key, e.value)
  {
    var line := EntryLine(e);
    KeyReads(e.key, e.value);
    TrimKeeps(line);
    TrimKeeps(e.key);
    TrimKeeps(e.value);
    assert line[..|e.key|] == e.key && line[|e.key| + 1..] == e.value;
  }

  predicate GoodEntries(entries: seq<Entry>) {
    && (forall i :: 0 <= i < |entries| ==> GoodEntry(entries[i]))
    && (forall i, j :: 0 <= i < j < |entries| ==> entries[i].key != entries[j].key)
  }

  /** None of the keys is there yet. */
  predicate NewKeys(level: Level, entries: seq<Entry>) {
    forall i {:trigger entries[i]} :: 0 <= i < |entries| ==> entries[i].key !in level.values
  }

  lemma OneEntryParsed(levels: Levels, cur: nat, entries: seq<Entry>, rest: seq<string>)
    requires cur < |levels| && entries != [] && GoodEntry(entries[0]) && entries[0].key !in levels[cur].values
    ensures ParsedLines(levels, cur, EntryLines(entries) + rest) == ParsedLines(
      AfterEntry(levels, cur, entries[0].key, entries[0].value).levels, cur, EntryLines(entries[1..]) + rest)
  {
    EntryLineParsed(levels, cur, entries[0]);
    Assoc([EntryLine(entries[0])], EntryLines(entries[1..]), rest);
    OneLineParsed(levels, cur, EntryLine(entries[0]), EntryLines(entries[1..]) + rest);
  }

  lemma {:induction false} EntriesParsed(levels: Levels, cur: nat, entries: seq<Entry>, rest: seq<string>)
    requires cur < |levels| && GoodEntries(entries) && NewKeys(levels[cur], entries)
    ensures ParsedLines(levels, cur, EntryLines(entries) + rest)
      == ParsedLines(levels[cur := WithEntries(levels[cur], entries)], cur, rest)
    decreases entries
  {
    if entries == [] {
      assert levels[cur := levels[cur]] == levels;
      assert EntryLines(entries) + rest == rest;
    } else {
      OneEntryParsed(levels, cur, entries, rest);
      var more := AfterEntry(levels, cur, entries[0].key, entries[0].value).levels;
      EntriesParsed(more, cur, entries[1..], rest);
      assert more[cur := WithEntries(more[cur], entries[1..])] == levels[cur := WithEntries(levels[cur], entries)];
    }
  }

  lemma SectionLineParsed(levels: Levels, cur: nat, name: string, depth: nat)
    requires cur < |levels| && GoodName(name) && depth > 0
    ensures AfterLineOf(levels, cur, SectionLine(name, depth)) == AfterSection(levels, cur, name, depth)
  {
    var line := SectionLine(name, depth);
    SectionLineReads(name, depth);
    TrimKeeps(line);
  }

  // ----- Climbing -----------------------------------------------------------------------------

  /** The level p is one of those that lines after the last level can go back to. */
  predicate OnPath(levels: Levels, p: nat) {
    && p < |levels|
    && levels[p].depth <= levels[|levels| - 1].depth
    && Up(levels, |levels| - 1, levels[|levels| - 1].depth - levels[p].depth) == p
  }

  lemma {:induction false} UpMore(levels: Levels, i: nat, n: nat)
    requires Soundness(levels).Sound? && i < |levels| && n < levels[i].depth
    ensures levels[Up(levels, i, n)].parent.Some? && Up(levels, i, n + 1) == levels[Up(levels, i, n)].parent.value
    decreases n
  {
    assert LevelStands(levels, i);
    if n > 0 {
      UpMore(levels, levels[i].parent.value, n - 1);
    } else {
      assert Up(levels, i, 1) == Up(levels, levels[i].parent.value, 0);
    }
  }

  /** If a level is on the path, so is its parent. */
  lemma ParentOnPath(levels: Levels, c: nat, p: nat)
    requires Soundness(levels).Sound? && OnPath(levels, c) && levels[c].parent == Some(p)
    ensures OnPath(levels, p)
  {
    assert LevelStands(levels, c);
    UpMore(levels, |levels| - 1, levels[|levels| - 1].depth - levels[c].depth);
  }

  // ----- Sections -----------------------------------------------------------------------------

  /** Only level p has changed, of those there were. */
  predicate OnlyChanged(levels: Levels, more: Levels, p: nat) {
    |levels| <= |more| && forall i | 0 <= i < |levels| && i != p :: more[i] == levels[i]
  }

  // ----- What has been parsed -----------------------------------------------------------------

  /** Levels from j on stand for the same trees when later ones are added. */
  lemma {:induction false} TreeStays(levels: Levels, more: Levels, j: nat)
    requires Soundness(levels).Sound? && j < |levels| <= |more| && forall i | j <= i < |levels| :: more[i] == levels[i]
    ensures TreeOf(more, j) == TreeOf(levels, j)
    decreases |levels| - j, 1, 0
  {
    ChildrenStay(levels, more, j);
    SectionsStay(levels, more, j, |levels[j].orderedSections|);
  }

  lemma ChildrenStay(levels: Levels, more: Levels, j: nat)
    requires Soundness(levels).Sound? && j < |levels| <= |more|
      && |levels[j].orderedSections| <= |more[j].orderedSections|
    requires forall i | j < i < |levels| :: more[i].parent == levels[i].parent
    requires more[j].orderedSections[..|levels[j].orderedSections|] == levels[j].orderedSections
    requires forall name :: name in levels[j].sections ==>
      name in more[j].sections && more[j].sections[name] == levels[j].sections[name]
    ensures forall k | 0 <= k < |levels[j].orderedSections| :: SameChild(levels, more, j, k)
  {
    assert LevelStands(levels, j);
    forall k | 0 <= k < |levels[j].orderedSections| ensures SameChild(levels, more, j, k) {
      var name := levels[j].orderedSections[k];
      assert more[j].orderedSections[k] == name;
      assert IsChild(levels, j, name) && IsChild(more, j, name);
    }
  }

  lemma {:induction false} SectionsStay(levels: Levels, more: Levels, j: nat, n: nat)
    requires Soundness(levels).Sound? && j < |levels| <= |more| && n <= |levels[j].orderedSections|
    requires n <= |more[j].orderedSections|
    requires forall i | j < i < |levels| :: more[i] == levels[i]
    requires forall k | 0 <= k < n :: SameChild(levels, more, j, k)
    ensures SectionsOf(more, j, n) == SectionsOf(levels, j, n)
    decreases |levels| - j, 0, n
  {
    if n > 0 {
      SectionsStay(levels, more, j, n - 1);
      assert SameChild(levels, more, j, n - 1);
      TreeStays(levels, more, Child(levels, j, n - 1));
    }
  }

  /** Section number k of level j is the same level. */
  predicate SameChild(levels: Levels, more: Levels, j: nat, k: nat) {
    && j < |levels| && j < |more| && k < |levels[j].orderedSections| && k < |more[j].orderedSections|
    && more[j].orderedSections[k] == levels[j].orderedSections[k]
    && Child(levels, j, k) < |levels| && Child(more, j, k) == Child(levels, j, k)
  }

  /** The keys and values of a level after some more. */
  lemma {:induction false} EntriesBuilt(level: Level, entries: seq<Entry>)
    requires GoodEntries(entries) && NewKeys(level, entries)
    requires forall k :: k in level.orderedValues ==> k in level.values
    ensures var r := WithEntries(level, entries);
      && (forall k :: k in r.orderedValues ==> k in r.values) && Values(r) == Values(level) + entries
      && r == level.(values := r.values, orderedValues := r.orderedValues)
    decreases entries
  {
    if entries != [] {
      EntryBuilt(level, entries[0]);
      EntriesBuilt(WithOneEntry(level, entries[0]), entries[1..]);
      Assoc(Values(level), [entries[0]], entries[1..]);
      assert [entries[0]] + entries[1..] == entries;
    } else {
      assert Values(level) + entries == Values(level);
    }
  }

  lemma EntryBuilt(level: Level, e: Entry)
    requires e.key !in level.values && forall k :: k in level.orderedValues ==> k in level.values
    ensures var r := WithOneEntry(level, e);
      (forall k :: k in r.orderedValues ==> k in r.values) && Values(r) == Values(level) + [e]
  {
    OneMoreEntry(level.values, level.orderedValues, e);
  }

  lemma {:induction false} OneMoreEntry(values: map<string, string>, keys: seq<string>, e: Entry)
    requires (forall k :: k in keys ==> k in values) && e.key !in values
    ensures EntriesOf(values[e.key := e.value], keys + [e.key]) == EntriesOf(values, keys) + [e]
    decreases keys
  {
    if keys != [] {
      OneMoreEntry(values, keys[1..], e);
      assert (keys + [e.key])[1..] == keys[1..] + [e.key];
    }
  }

  lemma {:induction false} EntriesAreSound(levels: Levels, cur: nat, entries: seq<Entry>)
    requires Soundness(levels).Sound? && cur < |levels| && GoodEntries(entries) && NewKeys(levels[cur], entries)
    ensures Soundness(levels[cur := WithEntries(levels[cur], entries)]).Sound?
    decreases entries
  {
    if entries == [] {
      assert levels[cur := levels[cur]] == levels;
    } else {
      EntryIsSound(levels, cur, entries[0].key, entries[0].value);
      var more := AfterEntry(levels, cur, entries[0].key, entries[0].value).levels;
      EntriesAreSound(more, cur, entries[1..]);
      assert more[cur := WithEntries(more[cur], entries[1..])] == levels[cur := WithEntries(levels[cur], entries)];
    }
  }

  // ----- The levels of a section --------------------------------------------------------------

  predicate Extends(levels: Levels, r: Levels, p: nat, names: seq<string>) {
    && p < |levels| && OnlyChanged(levels, r, p)
    && r[p] == levels[p].(sections := r[p].sections, orderedSections := levels[p].orderedSections + names)
    && forall name :: name in levels[p].sections ==>
      name in r[p].sections && r[p].sections[name] == levels[p].sections[name]
  }

  lemma EnteredStands(levels: Levels, p: nat, s: Section)
    requires Soundness(levels).Sound? && p < |levels| && s.name !in levels[p].sections && GoodEntries(s.tree.values)
    ensures var r := Entered(levels, p, s); var c := |levels|;
      && Soundness(r).Sound? && Extends(levels, r, p, [s.name]) && OnPath(r, c)
      && r[p].sections == levels[p].sections[s.name := c]
      && r[c].parent == Some(p) && r[c].sections == map[] && r[c].orderedSections == [] && Values(r[c]) == s.tree.values
  {
    var c := |levels|;
    var entered := Opened(levels, p, s.name, levels[p].depth + 1).levels;
    OpenedIsSound(levels, p, s.name);
    EntriesAreSound(entered, c, s.tree.values);
    EntriesBuilt(entered[c], s.tree.values);
    assert Values(entered[c]) == [];
    assert [] + s.tree.values == s.tree.values;
  }

  predicate GoodSections(sections: seq<Section>) {
    && (forall i :: 0 <= i < |sections| ==> GoodName(sections[i].name) && Good(sections[i].tree))
    && (forall i, j :: 0 <= i < j < |sections| ==> sections[i].name != sections[j].name)
  }

  predicate NewNames(level: Level, sections: seq<Section>) {
    forall i {:trigger sections[i]} :: 0 <= i < |sections| ==> sections[i].name !in level.sections
  }

  function Names(sections: seq<Section>): seq<string> {
    if sections == [] then [] else [sections[0].name] + Names(sections[1..])
  }

  /** The levels of a section stand for it, in p, and lines can go on from there. */
  lemma {:induction false} SectionBuilt(levels: Levels, p: nat, s: Section)
    requires Soundness(levels).Sound? && p < |levels| && s.name !in levels[p].sections && Good(s.tree)
    ensures var r := WithSection(levels, p, s); var c := |levels|;
      && Soundness(r).Sound? && Extends(levels, r, p, [s.name]) && OnPath(r, c) && r[c].parent == Some(p)
      && r[p].sections == levels[p].sections[s.name := c] && TreeOf(r, c) == s.tree
    decreases s, 1, 0
  {
    var c := |levels|;
    var e := Entered(levels, p, s);
    EnteredStands(levels, p, s);
    SectionsBuilt(e, c, s.tree.sections);
    var r := WithSection(levels, p, s);
    assert SectionsOf(e, c, 0) == [];
    assert [] + s.tree.sections == s.tree.sections;
  }

  /** And so do those of several sections. */
  lemma {:induction false} SectionsBuilt(levels: Levels, p: nat, sections: seq<Section>)
    requires Soundness(levels).Sound? && OnPath(levels, p) && GoodSections(sections) && NewNames(levels[p], sections)
    ensures var r := WithSections(levels, p, sections);
      && Soundness(r).Sound? && Extends(levels, r, p, Names(sections)) && OnPath(r, p)
      && SectionsOf(r, p, |r[p].orderedSections|) == SectionsOf(levels, p, |levels[p].orderedSections|) + sections
    decreases sections, 0
  {
    var n := |levels[p].orderedSections|;
    if sections == [] {
      assert levels[p].orderedSections + [] == levels[p].orderedSections;
      assert SectionsOf(levels, p, n) + [] == SectionsOf(levels, p, n);
    } else {
      var s := sections[0];
      var m := WithSection(levels, p, s);
      SectionBuilt(levels, p, s);
      ParentOnPath(m, |levels|, p);
      SectionGoesLast(levels, m, p, s);
      SectionsBuilt(m, p, sections[1..]);
      Assoc(levels[p].orderedSections, [s.name], Names(sections[1..]));
      Assoc(SectionsOf(levels, p, n), [s], sections[1..]);
      assert [s] + sections[1..] == sections;
    }
  }

  lemma SectionGoesLast(levels: Levels, m: Levels, p: nat, s: Section)
    requires Soundness(levels).Sound? && Soundness(m).Sound? && Extends(levels, m, p, [s.name]) && |levels| < |m|
    requires m[p].sections == levels[p].sections[s.name := |levels|] && TreeOf(m, |levels|) == s.tree
    ensures SectionsOf(m, p, |m[p].orderedSections|) == SectionsOf(levels, p, |levels[p].orderedSections|) + [s]
  {
    var n := |levels[p].orderedSections|;
    ChildrenStay(levels, m, p);
    SectionsStay(levels, m, p, n);
    assert m[p].orderedSections[n] == s.name;
    assert LevelStands(m, p) && IsChild(m, p, s.name);
    assert Child(m, p, n) == |levels|;
  }

  // ----- Parsing them -------------------------------------------------------------------------

  /** Lines make of levels, as long as the last one is the current one, others, of which the last is the
      current one, whatever lines follow. */
  ghost function Leads(levels: Levels, lines: seq<string>, r: Levels): Verdict {
    if forall rest {:trigger LeadsWith(levels, lines, r, rest)} :: LeadsWith(levels, lines, r, rest)
    then Sound else Broken
  }

  predicate LeadsWith(levels: Levels, lines: seq<string>, r: Levels, rest: seq<string>) {
    && |levels| > 0 && |r| > 0
    && ParsedLines(levels, |levels| - 1, lines + rest) == ParsedLines(r, |r| - 1, rest)
  }

  lemma LeadsOn(levels: Levels, a: seq<string>, m: Levels, b: seq<string>, r: Levels)
    requires Leads(levels, a, m).Sound? && Leads(m, b, r).Sound?
    ensures Leads(levels, a + b, r).Sound?
  {
    forall rest ensures LeadsWith(levels, a + b, r, rest) {
      assert LeadsWith(levels, a, m, b + rest) && LeadsWith(m, b, r, rest);
      Assoc(a, b, rest);
    }
  }

  lemma NothingLeads(levels: Levels)
    requires |levels| > 0
    ensures Leads(levels, [], levels).Sound?
  {
    forall rest: seq<string> ensures LeadsWith(levels, [], levels, rest) {
      assert [] + rest == rest;
    }
  }

  lemma HeadingLeads(levels: Levels, p: nat, name: string)
    requires Soundness(levels).Sound? && OnPath(levels, p) && name !in levels[p].sections && GoodName(name)
    ensures var depth := levels[p].depth + 1;
      Leads(levels, [SectionLine(name, depth)], Opened(levels, p, name, depth).levels).Sound?
  {
    var depth := levels[p].depth + 1;
    var s := Opened(levels, p, name, depth);
    assert AfterSection(levels, |levels| - 1, name, depth) == s;
    SectionLineParsed(levels, |levels| - 1, name, depth);
    forall rest ensures LeadsWith(levels, [SectionLine(name, depth)], s.levels, rest) {
      OneLineParsed(levels, |levels| - 1, SectionLine(name, depth), rest);
    }
  }

  lemma EntriesLead(o: Levels, entries: seq<Entry>)
    requires |o| > 0 && GoodEntries(entries) && NewKeys(o[|o| - 1], entries)
    ensures Leads(o, EntryLines(entries), o[|o| - 1 := WithEntries(o[|o| - 1], entries)]).Sound?
  {
    var r := o[|o| - 1 := WithEntries(o[|o| - 1], entries)];
    forall rest ensures LeadsWith(o, EntryLines(entries), r, rest) {
      EntriesParsed(o, |o| - 1, entries, rest);
    }
  }

  /** The lines of a section are parsed into its levels, wherever those before it have gone. */
  lemma {:induction false} SectionParsed(levels: Levels, p: nat, s: Section)
    requires Soundness(levels).Sound? && OnPath(levels, p) && s.name !in levels[p].sections
    requires GoodName(s.name) && Good(s.tree)
    ensures Leads(levels, NodeLines(s.tree, levels[p].depth + 1, s.name), WithSection(levels, p, s)).Sound?
    decreases s, 1, 0
  {
    var depth := levels[p].depth + 1;
    var o := Opened(levels, p, s.name, depth).levels;
    var e := Entered(levels, p, s);
    HeadingLeads(levels, p, s.name);
    EntriesLead(o, s.tree.values);
    LeadsOn(levels, [SectionLine(s.name, depth)], o, EntryLines(s.tree.values), e);
    EnteredStands(levels, p, s);
    EnteredDepth(levels, p, s);
    SectionsParsed(e, |levels|, s.tree.sections);
    LeadsOn(levels, [SectionLine(s.name, depth)] + EntryLines(s.tree.values), e,
      SectionsLines(s.tree.sections, depth + 1), WithSection(levels, p, s));
  }

  lemma NextStands(levels: Levels, p: nat, sections: seq<Section>)
    requires Soundness(levels).Sound? && OnPath(levels, p) && GoodSections(sections) && NewNames(levels[p], sections)
    requires sections != []
    ensures var m := WithSection(levels, p, sections[0]);
      && Soundness(m).Sound? && OnPath(m, p) && m[p].depth == levels[p].depth
      && GoodSections(sections[1..]) && NewNames(m[p], sections[1..])
  {
    SectionBuilt(levels, p, sections[0]);
    ParentOnPath(WithSection(levels, p, sections[0]), |levels|, p);
  }

  lemma EnteredDepth(levels: Levels, p: nat, s: Section)
    requires Soundness(levels).Sound? && p < |levels| && s.name !in levels[p].sections && GoodEntries(s.tree.values)
    ensures Entered(levels, p, s)[|levels|].depth == levels[p].depth + 1
  {
    var entered := Opened(levels, p, s.name, levels[p].depth + 1).levels;
    EntriesBuilt(entered[|levels|], s.tree.values);
  }

  lemma {:induction false} SectionsParsed(levels: Levels, p: nat, sections: seq<Section>)
    requires Soundness(levels).Sound? && OnPath(levels, p) && GoodSections(sections) && NewNames(levels[p], sections)
    ensures Leads(levels, SectionsLines(sections, levels[p].depth + 1), WithSections(levels, p, sections)).Sound?
    decreases sections, 0
  {
    if sections == [] {
      NothingLeads(levels);
    } else {
      var depth := levels[p].depth + 1;
      var m := WithSection(levels, p, sections[0]);
      SectionParsed(levels, p, sections[0]);
      NextStands(levels, p, sections);
      SectionsParsed(m, p, sections[1..]);
      LeadsOn(levels, NodeLines(sections[0].tree, depth, sections[0].name), m, SectionsLines(sections[1..], depth),
        WithSections(levels, p, sections));
    }
  }

  /** Parsing what dump has printed of a tree rebuilds it: its values and sections in their order, and, the levels
      being sound, their depths and parents. */
  lemma DumpedIsParsed(t: Tree)
    requires Good(t) && TopApart(t)
    ensures var s := Parsed(Top(), 0, Dumped(t, 0, ""));
      s.State? && Soundness(s.levels).Sound? && TreeOf(s.levels, 0) == t
  {
    GoodIsPlain(t);
    DumpLines(t);
    ParsedByLines(Top(), 0, Dumped(t, 0, ""));
    TopParsed(t);
    TopBuilt(t);
  }

  lemma {:induction false} GoodIsPlain(t: Tree)
    requires Good(t)
    ensures Plain(t)
    decreases t
  {
    forall i {:trigger t.sections[i]} | 0 <= i < |t.sections| ensures Plain(t.sections[i].tree) {
      GoodIsPlain(t.sections[i].tree);
    }
  }

  function TopWith(t: Tree): Levels {
    [WithEntries(Top()[0], t.values)]
  }

  lemma TopParsed(t: Tree)
    requires Good(t)
    ensures var r := WithSections(TopWith(t), 0, t.sections); ParsedLines(Top(), 0, TopLines(t)) == State(r, |r| - 1)
  {
    TopIsSound();
    EntriesLead(Top(), t.values);
    EntriesAreSound(Top(), 0, t.values);
    EntriesBuilt(Top()[0], t.values);
    assert Top()[0 := WithEntries(Top()[0], t.values)] == TopWith(t);
    SectionsParsed(TopWith(t), 0, t.sections);
    var r := WithSections(TopWith(t), 0, t.sections);
    LeadsOn(Top(), EntryLines(t.values), TopWith(t), SectionsLines(t.sections, 1), r);
    assert LeadsWith(Top(), TopLines(t), r, []);
    assert TopLines(t) + [] == TopLines(t);
  }

  lemma TopBuilt(t: Tree)
    requires Good(t)
    ensures var r := WithSections(TopWith(t), 0, t.sections); Soundness(r).Sound? && TreeOf(r, 0) == t
  {
    TopIsSound();
    EntriesAreSound(Top(), 0, t.values);
    EntriesBuilt(Top()[0], t.values);
    assert Top()[0 := WithEntries(Top()[0], t.values)] == TopWith(t);
    SectionsBuilt(TopWith(t), 0, t.sections);
    assert [] + t.values == t.values && [] + t.sections == t.sections;
  }
}
