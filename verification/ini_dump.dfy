/** What dump of ini/ini-parser/ini.hpp prints, as a text and line by line. */
module IniDump {
  import opened Sequences
  import opened IniText
  import opened IniLevels
  import opened Verdicts

  // ----- The text -----------------------------------------------------------------------------

  function EntryLine(e: Entry): (line: string)
    ensures line != ""
  {
    e.key + "=" + e.value
  }

  function EntriesText(entries: seq<Entry>): string {
    if entries == [] then "" else EntryLine(entries[0]) + "\n" + EntriesText(entries[1..])
  }

  /** The blank line and the heading of a section; the top level has none. */
  function Heading(depth: nat, name: string): string {
    var line := if name == "" then "" else "\n";
    line + SectionLine(name, depth) + line
  }

  /** dump */
  function Dumped(t: Tree, depth: nat, name: string): string {
    Heading(depth, name) + EntriesText(t.values) + SectionsText(t.sections, depth + 1)
  }

  function SectionsText(sections: seq<Section>, depth: nat): string {
    if sections == [] then ""
    else Dumped(sections[0].tree, depth, sections[0].name) + SectionsText(sections[1..], depth)
  }

  // ----- The lines that are meant -------------------------------------------------------------

  function EntryLines(entries: seq<Entry>): seq<string> {
    if entries == [] then [] else [EntryLine(entries[0])] + EntryLines(entries[1..])
  }

  /** A line for the section, and one for every entry and section in it. */
  function NodeLines(t: Tree, depth: nat, name: string): seq<string> {
    [SectionLine(name, depth)] + EntryLines(t.values) + SectionsLines(t.sections, depth + 1)
  }

  function SectionsLines(sections: seq<Section>, depth: nat): seq<string> {
    if sections == [] then []
    else NodeLines(sections[0].tree, depth, sections[0].name) + SectionsLines(sections[1..], depth)
  }

  function TopLines(t: Tree): seq<string> {
    EntryLines(t.values) + SectionsLines(t.sections, 1)
  }

  /** The number of entries and sections in a tree. */
  function Items(t: Tree): nat {
    |t.values| + SectionsItems(t.sections)
  }

  function SectionsItems(sections: seq<Section>): nat {
    if sections == [] then 0 else 1 + Items(sections[0].tree) + SectionsItems(sections[1..])
  }

  lemma {:induction false} EntryLinesCount(entries: seq<Entry>)
    ensures |EntryLines(entries)| == |entries|
    decreases entries
  {
    if entries != [] {
      EntryLinesCount(entries[1..]);
    }
  }

  lemma {:induction false} SectionsLinesCount(sections: seq<Section>, depth: nat)
    ensures |SectionsLines(sections, depth)| == SectionsItems(sections)
    decreases sections
  {
    if sections != [] {
      EntryLinesCount(sections[0].tree.values);
      SectionsLinesCount(sections[0].tree.sections, depth + 1);
      SectionsLinesCount(sections[1..], depth);
    }
  }

  lemma TopLinesCount(t: Tree)
    ensures |TopLines(t)| == Items(t)
  {
    EntryLinesCount(t.values);
    SectionsLinesCount(t.sections, 1);
  }

  // ----- The lines that are printed -----------------------------------------------------------

  /** Lines that have been ended, and the beginning of one that has not. */
  datatype Page = Page(lines: seq<string>, open: string) {
    function All(): seq<string> {
      if open == "" then lines else lines + [open]
    }
  }

  /** The line of a section without a name is not ended, and not begun anew either. */
  function WithHeading(p: Page, depth: nat, name: string): Page {
    if name == "" then Page(p.lines, p.open + SectionLine(name, depth))
    else Page(p.All() + [SectionLine(name, depth)], "")
  }

  function WithEntry(p: Page, e: Entry): Page {
    Page(p.lines + [p.open + EntryLine(e)], "")
  }

  function WithAllEntries(p: Page, entries: seq<Entry>): Page
    decreases entries
  {
    if entries == [] then p else WithAllEntries(WithEntry(p, entries[0]), entries[1..])
  }

  function WithNode(p: Page, t: Tree, depth: nat, name: string): Page
    decreases t, 1
  {
    WithNodes(WithAllEntries(WithHeading(p, depth, name), t.values), t.sections, depth + 1)
  }

  function WithNodes(p: Page, sections: seq<Section>, depth: nat): Page
    decreases sections, 0
  {
    if sections == [] then p
    else WithNodes(WithNode(p, sections[0].tree, depth, sections[0].name), sections[1..], depth)
  }

  /** No part of a tree has a line break. */
  predicate Plain(t: Tree)
    decreases t, 1
  {
    PlainEntries(t.values) && PlainSections(t.sections)
  }

  predicate PlainEntries(entries: seq<Entry>) {
    forall i {:trigger entries[i]} | 0 <= i < |entries| :: OneLine(entries[i].key) && OneLine(entries[i].value)
  }

  predicate PlainSections(sections: seq<Section>)
    decreases sections, 0
  {
    forall i {:trigger sections[i]} | 0 <= i < |sections| :: OneLine(sections[i].name) && Plain(sections[i].tree)
  }

  /** The text is on the page, whatever follows. */
  ghost function Shows(text: string, p: Page): Verdict {
    if OneLine(p.open) && forall rest {:trigger ShowsWith(text, p, rest)} :: ShowsWith(text, p, rest)
    then Sound else Broken
  }

  predicate ShowsWith(text: string, p: Page, rest: string) {
    Lines(text + rest) == p.lines + Lines(p.open + rest)
  }

  lemma FirstLine(line: string, rest: string)
    requires OneLine(line)
    ensures Lines(line + "\n" + rest) == (if line == "" then [] else [line]) + Lines(rest)
  {
    LineReads(line, rest);
  }

  lemma LastLine(line: string)
    requires OneLine(line)
    ensures Lines(line) == if line == "" then [] else [line]
  {
    if line != "" {
      assert LineEnd(line) == |line| && line[..|line|] == line && AfterLine(line) == "";
      assert [line] + Lines("") == [line];
    }
  }

  /** More text on the line that is open. */
  lemma ShowsMore(text: string, p: Page, more: string)
    requires Shows(text, p).Sound? && OneLine(more)
    ensures Shows(text + more, Page(p.lines, p.open + more)).Sound?
  {
    var q := Page(p.lines, p.open + more);
    forall rest ensures ShowsWith(text + more, q, rest) {
      assert ShowsWith(text, p, more + rest);
      Assoc(text, more, rest);
      Assoc(p.open, more, rest);
    }
  }

  /** The end of the line that is open. */
  lemma ShowsEnd(text: string, p: Page)
    requires Shows(text, p).Sound?
    ensures Shows(text + "\n", Page(p.All(), "")).Sound?
  {
    var q := Page(p.All(), "");
    forall rest ensures ShowsWith(text + "\n", q, rest) {
      assert ShowsWith(text, p, "\n" + rest);
      EndShown(text, p, rest);
    }
  }

  lemma EndShown(text: string, p: Page, rest: string)
    requires OneLine(p.open) && ShowsWith(text, p, "\n" + rest)
    ensures ShowsWith(text + "\n", Page(p.All(), ""), rest)
  {
    Assoc(text, "\n", rest);
    LineEnded(p, rest);
    assert "" + rest == rest;
  }

  lemma LineEnded(p: Page, rest: string)
    requires OneLine(p.open)
    ensures p.lines + Lines(p.open + ("\n" + rest)) == p.All() + Lines(rest)
  {
    Assoc(p.open, "\n", rest);
    FirstLine(p.open, rest);
    if p.open != "" {
      Assoc(p.lines, [p.open], Lines(rest));
    } else {
      assert [] + Lines(rest) == Lines(rest);
    }
  }

  lemma ShowsHeading(text: string, p: Page, depth: nat, name: string)
    requires Shows(text, p).Sound? && OneLine(name)
    ensures Shows(text + Heading(depth, name), WithHeading(p, depth, name)).Sound?
  {
    var line := SectionLine(name, depth);
    assert OneLine(line);
    if name == "" {
      assert Heading(depth, name) == line;
      ShowsMore(text, p, line);
    } else {
      var q := Page(p.All(), "");
      ShowsEnd(text, p);
      ShowsMore(text + "\n", q, line);
      assert "" + line == line;
      ShowsEnd(text + "\n" + line, Page(q.lines, line));
      assert text + "\n" + line + "\n" == text + Heading(depth, name);
    }
  }

  lemma ShowsEntry(text: string, p: Page, e: Entry)
    requires Shows(text, p).Sound? && OneLine(e.key) && OneLine(e.value)
    ensures Shows(text + (EntryLine(e) + "\n"), WithEntry(p, e)).Sound?
  {
    var line := EntryLine(e);
    ShowsMore(text, p, line);
    ShowsEnd(text + line, Page(p.lines, p.open + line));
    Assoc(text, line, "\n");
  }

  lemma {:induction false} ShowsEntries(text: string, p: Page, entries: seq<Entry>)
    requires Shows(text, p).Sound? && PlainEntries(entries)
    ensures Shows(text + EntriesText(entries), WithAllEntries(p, entries)).Sound?
    decreases entries
  {
    if entries == [] {
      assert text + "" == text;
    } else {
      var first := EntryLine(entries[0]) + "\n";
      ShowsEntry(text, p, entries[0]);
      ShowsEntries(text + first, WithEntry(p, entries[0]), entries[1..]);
      Assoc(text, first, EntriesText(entries[1..]));
    }
  }

  lemma {:induction false} ShowsNode(text: string, p: Page, t: Tree, depth: nat, name: string)
    requires Shows(text, p).Sound? && Plain(t) && OneLine(name)
    ensures Shows(text + Dumped(t, depth, name), WithNode(p, t, depth, name)).Sound?
    decreases t, 1
  {
    var heading, entries := Heading(depth, name), EntriesText(t.values);
    var q := WithHeading(p, depth, name);
    ShowsHeading(text, p, depth, name);
    ShowsEntries(text + heading, q, t.values);
    ShowsNodes(text + heading + entries, WithAllEntries(q, t.values), t.sections, depth + 1);
    Assoc4(text, heading, entries, SectionsText(t.sections, depth + 1));
    Assoc(heading, entries, SectionsText(t.sections, depth + 1));
  }

  lemma {:induction false} ShowsNodes(text: string, p: Page, sections: seq<Section>, depth: nat)
    requires Shows(text, p).Sound? && PlainSections(sections)
    ensures Shows(text + SectionsText(sections, depth), WithNodes(p, sections, depth)).Sound?
    decreases sections, 0
  {
    if sections == [] {
      assert text + "" == text;
    } else {
      var s := sections[0];
      ShowsNode(text, p, s.tree, depth, s.name);
      ShowsNodes(text + Dumped(s.tree, depth, s.name), WithNode(p, s.tree, depth, s.name), sections[1..], depth);
      Assoc(text, Dumped(s.tree, depth, s.name), SectionsText(sections[1..], depth));
    }
  }

  /** The lines of a dump are those of its page. */
  lemma DumpShown(t: Tree)
    requires Plain(t)
    ensures Lines(Dumped(t, 0, "")) == WithNode(Page([], ""), t, 0, "").All()
  {
    var blank, text := Page([], ""), Dumped(t, 0, "");
    forall rest ensures ShowsWith("", blank, rest) {
      assert [] + Lines("" + rest) == Lines("" + rest);
    }
    assert OneLine("") && Shows("", blank).Sound?;
    ShowsNode("", blank, t, 0, "");
    var p := WithNode(blank, t, 0, "");
    assert "" + text == text && text + "" == text && p.open + "" == p.open;
    assert ShowsWith(text, p, "");
    LastLine(p.open);
    assert p.lines + [] == p.lines;
  }

  // ----- When they are the lines that are meant -----------------------------------------------

  /** A section ends with an open line if the last section in it does, or it is empty and has no name. */
  predicate EndsOpen(t: Tree, name: string) {
    if t.sections == [] then name == "" && t.values == []
    else
      var last := t.sections[|t.sections| - 1];
      EndsOpen(last.tree, last.name)
  }

  /** No section without a name is printed on a line that is open, nor has values that would be printed on its
      line. */
  predicate Apart(t: Tree, name: string, open: bool)
    decreases t, 1
  {
    && (name == "" ==> !open && t.values == [])
    && SectionsApart(t.sections, name == "")
  }

  predicate SectionsApart(sections: seq<Section>, open: bool)
    decreases sections, 0
  {
    sections == []
    || (Apart(sections[0].tree, sections[0].name, open)
        && SectionsApart(sections[1..], EndsOpen(sections[0].tree, sections[0].name)))
  }

  /** In a dump every entry and every section has a line of its own. */
  predicate TopApart(t: Tree) {
    SectionsApart(t.sections, false)
  }

  /** All sections have names. */
  predicate Named(sections: seq<Section>) {
    forall i {:trigger sections[i]} | 0 <= i < |sections| :: sections[i].name != "" && Named(sections[i].tree.sections)
  }

  lemma {:induction false} NamedEnds(t: Tree, name: string)
    requires name != "" && Named(t.sections)
    ensures !EndsOpen(t, name)
    decreases t
  {
    if t.sections != [] {
      var last := t.sections[|t.sections| - 1];
      NamedEnds(last.tree, last.name);
    }
  }

  /** Then nothing shares a line. */
  lemma {:induction false} NamedIsApart(sections: seq<Section>)
    requires Named(sections)
    ensures SectionsApart(sections, false)
    decreases sections
  {
    if sections != [] {
      NamedEnds(sections[0].tree, sections[0].name);
      NamedIsApart(sections[0].tree.sections);
      NamedIsApart(sections[1..]);
    }
  }

  lemma {:induction false} EntriesAdded(p: Page, entries: seq<Entry>)
    ensures var q := WithAllEntries(p, entries);
      && (entries == [] ==> q == p) && (entries != [] ==> q.open == "")
      && (p.open == "" ==> q.All() == p.All() + EntryLines(entries))
      && |q.All()| <= |p.All()| + |entries|
      && (p.open != "" && entries != [] ==> |q.All()| < |p.All()| + |entries|)
    decreases entries
  {
    if entries == [] {
      assert p.All() + [] == p.All();
    } else {
      EntryAdded(p, entries[0]);
      EntriesAdded(WithEntry(p, entries[0]), entries[1..]);
      if p.open == "" {
        Assoc(p.All(), [EntryLine(entries[0])], EntryLines(entries[1..]));
      }
    }
  }

  lemma EntryAdded(p: Page, e: Entry)
    ensures var q := WithEntry(p, e);
      && q.open == "" && |q.All()| == |p.All()| + (if p.open == "" then 1 else 0)
      && (p.open == "" ==> q.All() == p.All() + [EntryLine(e)])
  {
    assert "" + EntryLine(e) == EntryLine(e);
  }

  lemma HeadingAdded(p: Page, depth: nat, name: string)
    requires depth > 0
    ensures var q := WithHeading(p, depth, name);
      && (q.open != "" <==> name == "")
      && (name != "" || p.open == "" ==> q.All() == p.All() + [SectionLine(name, depth)])
      && (name == "" && p.open != "" ==> |q.All()| == |p.All()|)
  {
    assert "" + SectionLine(name, depth) == SectionLine(name, depth);
  }

  /** What a section adds to a page. */
  ghost predicate NodeAdds(p: Page, t: Tree, depth: nat, name: string) {
    var q := WithNode(p, t, depth, name);
    && (q.open != "" <==> EndsOpen(t, name))
    && |q.All()| <= |p.All()| + 1 + Items(t)
    && if Apart(t, name, p.open != "") then q.All() == p.All() + NodeLines(t, depth, name)
       else |q.All()| < |p.All()| + 1 + Items(t)
  }

  ghost predicate NodesAdd(p: Page, sections: seq<Section>, depth: nat) {
    var q := WithNodes(p, sections, depth);
    && (sections == [] ==> q == p)
    && (sections != [] ==>
          var last := sections[|sections| - 1]; q.open != "" <==> EndsOpen(last.tree, last.name))
    && |q.All()| <= |p.All()| + SectionsItems(sections)
    && if SectionsApart(sections, p.open != "") then q.All() == p.All() + SectionsLines(sections, depth)
       else |q.All()| < |p.All()| + SectionsItems(sections)
  }

  lemma {:induction false} NodeAdded(p: Page, t: Tree, depth: nat, name: string)
    requires depth > 0
    ensures NodeAdds(p, t, depth, name)
    decreases t, 1
  {
    var h := WithHeading(p, depth, name);
    var e := WithAllEntries(h, t.values);
    HeadingAdded(p, depth, name);
    EntriesAdded(h, t.values);
    NodesAdded(e, t.sections, depth + 1);
    if Apart(t, name, p.open != "") {
      if t.values == [] {
        assert [SectionLine(name, depth)] + EntryLines(t.values) == [SectionLine(name, depth)];
      }
      Assoc(p.All(), [SectionLine(name, depth)], EntryLines(t.values));
      Assoc(p.All(), [SectionLine(name, depth)] + EntryLines(t.values), SectionsLines(t.sections, depth + 1));
    }
  }

  lemma {:induction false} NodesAdded(p: Page, sections: seq<Section>, depth: nat)
    requires depth > 0
    ensures NodesAdd(p, sections, depth)
    decreases sections, 0
  {
    if sections == [] {
      assert p.All() + [] == p.All();
    } else {
      var s := sections[0];
      var q := WithNode(p, s.tree, depth, s.name);
      NodeAdded(p, s.tree, depth, s.name);
      NodesAdded(q, sections[1..], depth);
      if |sections| > 1 {
        assert sections[1..][|sections| - 2] == sections[|sections| - 1];
      }
      if SectionsApart(sections, p.open != "") {
        Assoc(p.All(), NodeLines(s.tree, depth, s.name), SectionsLines(sections[1..], depth));
      }
    }
  }

  /** A dump has a line for every entry and every section, or fewer lines. */
  lemma DumpLines(t: Tree)
    requires Plain(t)
    ensures var lines := Lines(Dumped(t, 0, ""));
      if TopApart(t) then lines == TopLines(t) else |lines| < Items(t)
  {
    var blank := Page([], "");
    DumpShown(t);
    assert WithHeading(blank, 0, "") == blank;
    EntriesAdded(blank, t.values);
    assert [] + EntryLines(t.values) == EntryLines(t.values);
    NodesAdded(WithAllEntries(blank, t.values), t.sections, 1);
    EntryLinesCount(t.values);
  }
}
