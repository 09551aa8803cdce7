/** Level and Parser of ini/ini-parser/ini.hpp: levels in the heap that point to their parents. */
module IniParser {
  import opened Sequences
  import opened IniText
  import opened IniLevels
  import opened IniDump
  import opened Verdicts

  class LevelNode {
    var values: map<string, string>
    var sections: map<string, LevelNode>
    var orderedValues: seq<string>
    var orderedSections: seq<string>
    var parent: LevelNode?
    var depth: nat
    /** Its number in the order in which levels were created. */
    ghost const id: nat

    constructor (ghost id: nat)
      ensures values == map[] && sections == map[] && orderedValues == [] && orderedSections == []
      ensures parent == null && depth == 0 && this.id == id
    {
      values, sections, orderedValues, orderedSections := map[], map[], [], [];
      parent, depth := null, 0;
      this.id := id;
    }

    ghost function Rec(): Level
      reads this
    {
      Level(values, map name | name in sections :: sections[name].id, orderedValues, orderedSections,
        if parent == null then None else Some(parent.id), depth)
    }
  }

  ghost predicate Known(all: seq<LevelNode>, l: LevelNode) {
    l.id < |all| && all[l.id] == l
  }

  /** The pointers of level i are to levels that there are. */
  ghost predicate Points(all: seq<LevelNode>, i: nat)
    reads all
  {
    && i < |all| && all[i].id == i
    && (forall name {:trigger all[i].sections[name]} :: name in all[i].sections ==> Known(all, all[i].sections[name]))
    && (all[i].parent != null ==> Known(all, all[i].parent))
  }

  ghost function Snapshot(all: seq<LevelNode>): (r: Levels)
    reads all
    ensures |r| == |all|
    ensures forall i {:trigger r[i]} | 0 <= i < |all| :: r[i] == all[i].Rec()
  {
    if all == [] then [] else Snapshot(all[..|all| - 1]) + [all[|all| - 1].Rec()]
  }

  ghost function Linked(all: seq<LevelNode>): Verdict
    reads all
  {
    if |all| > 0 && forall i: nat {:trigger Points(all, i)} :: i < |all| ==> Points(all, i) then Sound else Broken
  }

  /** What a parsing comes to, but for the current level. */
  datatype Ending = Ended(levels: Levels) | Failed(fault: Fault)

  function EndOf(s: State): Ending {
    match s
    case State(levels, _) => Ended(levels)
    case Thrown(f) => Failed(f)
  }

  class Parser {
    const top: LevelNode
    ghost var all: seq<LevelNode>
    /** What is left of the stream. */
    var stream: string
    /** What has been dumped. */
    var output: string

    ghost predicate Valid()
      reads this, all
    {
      && Linked(all).Sound? && Soundness(Snapshot(all)).Sound? && all[0] == top
    }

    constructor (text: string)
      ensures Valid() && all == [top] && fresh(top) && Snapshot(all) == Top() && stream == text && output == ""
    {
      var l := new LevelNode(0);
      top := l;
      all := [l];
      stream, output := text, "";
      new;
      assert Snapshot(all) == Top();
      TopIsSound();
      assert Points(all, 0);
    }

    /** The next line of the stream. */
    method GetLine() returns (line: string)
      requires stream != ""
      modifies this`stream
      ensures line == old(stream)[..LineEnd(old(stream))] && stream == AfterLine(old(stream))
    {
      var n := LineEnd(stream);
      line := stream[..n];
      stream := AfterLine(stream);
    }

    /** parseSLine */
    method ParseSLine(line: string) returns (sname: string, depth: nat)
      ensures depth == Brackets(line) && sname == SectionName(line)
    {
      depth := 0;
      assert line[0..] == line;
      while depth < |line|
        invariant depth <= |line| && Brackets(line) == depth + Brackets(line[depth..])
      {
        if line[depth] != '[' {
          break;
        }
        assert line[depth..][1..] == line[depth + 1..];
        depth := depth + 1;
      }
      sname := if |line| < 2 * depth then line[depth..] else line[depth..|line| - depth];
    }

    /** A line with a key. */
    method AddEntry(l: LevelNode, key: string, value: string)
      requires Valid() && Known(all, l) && key !in l.values
      modifies l`values, l`orderedValues
      ensures Valid() && Snapshot(all) == AfterEntry(old(Snapshot(all)), l.id, key, value).levels
    {
      ghost var before := Snapshot(all);
      ghost var after := AfterEntry(before, l.id, key, value).levels;
      l.values := l.values[key := value];
      l.orderedValues := l.orderedValues + [key];
      forall i | 0 <= i < |all| ensures Snapshot(all)[i] == after[i] {
        assert old(Points(all, i)) && before[i] == old(all[i].Rec());
        assert after[l.id] == l.Rec();
      }
      assert Snapshot(all) == after;
      EntryIsSound(before, l.id, key, value);
      forall i: nat | i < |all| ensures Points(all, i) {
        assert old(Points(all, i));
      }
    }
  
    /** A section line in l, or an exception; the level lp that follows lines go to. */
    method AddSection(
        l: LevelNode, sname: string, depth: nat, ghost st: State)
      returns (lp: LevelNode, err: Option<Fault>)
      requires Valid() && Known(all, l) && depth > 0 && st == AfterSection(Snapshot(all), l.id, sname, depth)
      modifies this`all, all
      ensures err == (if st.State? then None else Some(st.fault))
      ensures st.State? ==> Valid() && Grows(old(all), all).Sound? && Snapshot(all) == st.levels
      ensures st.State? ==> Known(all, lp) && lp.id == st.cur
      ensures err.None? ==> forall i {:trigger all[i]} | |old(all)| <= i < |all| :: fresh(all[i])
    {
      lp := l;
      if depth > l.depth + 1 {
        return lp, Some(WrongDepth);
      }
      var parent := Climb(l, depth);
      lp, err := OpenIn(parent, sname, depth, st);
    }

    /** The section is opened in its parent, or is there already. */
    method OpenIn(
        parent: LevelNode, sname: string, depth: nat, ghost st: State)
      returns (lp: LevelNode, err: Option<Fault>)
      requires Valid() && Known(all, parent) && parent.depth + 1 == depth
      requires st == if sname in Snapshot(all)[parent.id].sections then Thrown(DuplicateSection)
        else Opened(Snapshot(all), parent.id, sname, depth)
      modifies this`all, all
      ensures err == (if st.State? then None else Some(st.fault))
      ensures st.State? ==> Valid() && Grows(old(all), all).Sound? && Snapshot(all) == st.levels
      ensures st.State? ==> Known(all, lp) && lp.id == st.cur
      ensures err.None? ==> forall i {:trigger all[i]} | |old(all)| <= i < |all| :: fresh(all[i])
    {
      lp := parent;
      assert Snapshot(all)[parent.id] == parent.Rec();
      if sname in parent.sections {
        ChildIsDeep(parent, sname);
        lp := parent.sections[sname];
        if lp.depth != 0 {
          return lp, Some(DuplicateSection);
        }
      }
      lp := Enter(parent, sname, depth);
      err := None;
    }

    /** The level that a section of a depth goes to. */
    method Climb(l: LevelNode, depth: nat) returns (parent: LevelNode)
      requires Valid() && Known(all, l) && 0 < depth <= l.depth + 1
      ensures Known(all, parent) && parent.id == Up(Snapshot(all), l.id, l.depth + 1 - depth)
      ensures parent.depth + 1 == depth
    {
      parent := l;
      if l.depth == depth - 1 {
        return;
      }
      ParentIsKnown(l);
      parent := Rise(l.parent, l.depth - depth);
    }

    /** Following parent n times. */
    method Rise(l: LevelNode, n: nat) returns (parent: LevelNode)
      requires Valid() && Known(all, l) && n <= l.depth
      ensures Known(all, parent) && parent.id == Up(Snapshot(all), l.id, n) && parent.depth + n == l.depth
    {
      parent := l;
      var i: nat := 0;
      while i < n
        invariant i <= n && Known(all, parent) && parent.depth + i == l.depth
        invariant Up(Snapshot(all), parent.id, n - i) == Up(Snapshot(all), l.id, n)
      {
        ParentIsKnown(parent);
        parent := parent.parent;
        i := i + 1;
      }
    }

    lemma ParentIsKnown(l: LevelNode)
      requires Valid() && Known(all, l) && l.depth > 0
      ensures l.parent != null && Known(all, l.parent) && l.parent.depth + 1 == l.depth
      ensures forall n: nat :: Up(Snapshot(all), l.id, n + 1) == Up(Snapshot(all), l.parent.id, n)
    {
      assert Points(all, l.id) && LevelStands(Snapshot(all), l.id);
    }

    lemma ChildIsDeep(parent: LevelNode, sname: string)
      requires Valid() && Known(all, parent) && sname in parent.sections
      ensures Known(all, parent.sections[sname]) && parent.sections[sname].depth != 0
    {
      assert Points(all, parent.id) && LevelStands(Snapshot(all), parent.id);
      assert IsChild(Snapshot(all), parent.id, sname);
      assert LevelStands(Snapshot(all), parent.sections[sname].id);
    }

    /** A new section of `parent`. */
    method Enter(parent: LevelNode, sname: string, depth: nat) returns (lp: LevelNode)
      requires Valid() && Known(all, parent) && sname !in parent.sections && parent.depth + 1 == depth
      modifies this`all, parent`sections, parent`orderedSections
      ensures Valid() && Known(all, lp) && fresh(lp) && lp.id == |old(all)| && all == old(all) + [lp]
      ensures Snapshot(all) == Opened(old(Snapshot(all)), parent.id, sname, depth).levels
    {
      ghost var before := Snapshot(all);
      lp := NewSection(parent, depth);
      assert Snapshot(all)[parent.id] == before[parent.id];
      OpenedIsSound(before, parent.id, sname);
      Link(parent, sname, lp, Opened(before, parent.id, sname, depth).levels);
    }

    /** A level that points to its parent. */
    method NewSection(parent: LevelNode, depth: nat) returns (lp: LevelNode)
      requires Valid() && Known(all, parent)
      modifies this`all
      ensures Linked(all).Sound? && all[0] == top && Known(all, lp) && fresh(lp) && all == old(all) + [lp]
        && lp.id == |old(all)|
      ensures Snapshot(all) == old(Snapshot(all)) + [NewLevel(parent.id, depth)]
    {
      ghost var before := Snapshot(all);
      lp := new LevelNode(|all|);
      if lp.parent == null {
        lp.depth := depth;
        lp.parent := parent;
      }
      all := all + [lp];
      assert all[..|all| - 1] == old(all) && Snapshot(old(all)) == before;
      assert lp.Rec() == NewLevel(parent.id, depth);
      forall i: nat | i < |all| ensures Points(all, i) {
        assert i < |old(all)| ==> old(Points(all, i));
      }
    }

    /** The parent points to its section. */
    method Link(parent: LevelNode, sname: string, lp: LevelNode, ghost after: Levels)
      requires Linked(all).Sound? && all[0] == top && Known(all, parent) && Known(all, lp)
      requires after == Snapshot(all)[parent.id := parent.Rec().(
        sections := parent.Rec().sections[sname := lp.id], orderedSections := parent.orderedSections + [sname])]
      requires Soundness(after).Sound?
      modifies parent`sections, parent`orderedSections
      ensures Valid() && Snapshot(all) == after
    {
      ghost var before := Snapshot(all);
      PointTo(parent, sname, lp);
      assert after[parent.id] == parent.Rec();
      forall i | 0 <= i < |all| ensures Snapshot(all)[i] == after[i] {
        assert old(Points(all, i)) && before[i] == old(all[i].Rec());
      }
      SameLevels(Snapshot(all), after);
    }

    method PointTo(parent: LevelNode, sname: string, lp: LevelNode)
      requires Linked(all).Sound? && Known(all, parent) && Known(all, lp)
      modifies parent`sections, parent`orderedSections
      ensures parent.Rec() == old(parent.Rec()).(
        sections := old(parent.Rec()).sections[sname := lp.id],
        orderedSections := old(parent.orderedSections) + [sname])
      ensures Linked(all).Sound?
    {
      parent.sections := parent.sections[sname := lp];
      parent.orderedSections := parent.orderedSections + [sname];
      forall i: nat | i < |all| ensures Points(all, i) {
        assert old(Points(all, i));
      }
    }

    /** One line; `lp` is the level that the next one goes to. */
    method ParseLine(l: LevelNode, raw: string, ghost st: State) returns (lp: LevelNode, err: Option<Fault>)
      requires Valid() && Known(all, l) && st == AfterLineOf(Snapshot(all), l.id, raw)
      modifies this`all, all
      ensures err == (if st.State? then None else Some(st.fault))
      ensures st.State? ==> Valid() && Grows(old(all), all).Sound? && Snapshot(all) == st.levels
      ensures st.State? ==> Known(all, lp) && lp.id == st.cur
      ensures err.None? ==> forall i {:trigger all[i]} | |old(all)| <= i < |all| :: fresh(all[i])
    {
      lp, err := l, None;
      if raw != "" && (raw[0] == '#' || raw[0] == ';') {
        return;
      }
      var line := Trim(raw);
      if line == "" {
        return;
      }
      if line[0] == '[' {
        var sname, depth := ParseSLine(line);
        lp, err := AddSection(l, sname, depth, st);
      } else {
        err := ParseEntry(l, line, st);
      }
    }

    /** A line with a key and a value. */
    method ParseEntry(l: LevelNode, line: string, ghost st: State) returns (err: Option<Fault>)
      requires Valid() && Known(all, l)
      requires var n := EqualsAt(line);
        st == if n == |line| then Thrown(NoEquals)
              else AfterEntry(Snapshot(all), l.id, Trimmed(line[..n]), Trimmed(line[n + 1..]))
      modifies l`values, l`orderedValues
      ensures err == (if st.State? then None else Some(st.fault))
      ensures st.State? ==> Valid() && Snapshot(all) == st.levels && l.id == st.cur
    {
      err := None;
      var n := EqualsAt(line);
      if n == |line| {
        return Some(NoEquals);
      }
      var key := Trim(line[..n]);
      var value := Trim(line[n + 1..]);
      err := Insert(l, key, value, st);
    }

    /** The insertion of a value, or an exception if the key is there. */
    method Insert(l: LevelNode, key: string, value: string, ghost st: State) returns (err: Option<Fault>)
      requires Valid() && Known(all, l) && st == AfterEntry(Snapshot(all), l.id, key, value)
      modifies l`values, l`orderedValues
      ensures err == (if st.State? then None else Some(st.fault))
      ensures st.State? ==> Valid() && Snapshot(all) == st.levels && l.id == st.cur
    {
      assert Snapshot(all)[l.id] == l.Rec();
      if key in l.values {
        return Some(DuplicateKey);
      }
      AddEntry(l, key, value);
      err := None;
    }

    method NextLine(l: LevelNode) returns (lp: LevelNode, err: Option<Fault>)
      requires Valid() && Known(all, l) && stream != ""
      modifies this`stream, this`all, all
      ensures stream == AfterLine(old(stream))
      ensures var st := AfterLineOf(old(Snapshot(all)), l.id, old(stream)[..LineEnd(old(stream))]);
        if st.State? then err == None && Snapshot(all) == st.levels && Known(all, lp) && lp.id == st.cur
        else err == Some(st.fault)
      ensures err.None? ==> Valid() && Grows(old(all), all).Sound?
      ensures err.None? ==> forall i {:trigger all[i]} | |old(all)| <= i < |all| :: fresh(all[i])
    {
      ghost var before := Snapshot(all);
      var line := GetLine();
      lp, err := ParseLine(l, line, AfterLineOf(before, l.id, line));
    }

    /** parse: it does not come back from a section before the end of the stream. */
    method Parse(l: LevelNode) returns (err: Option<Fault>)
      requires Valid() && Known(all, l)
      modifies this`stream, this`all, all
      ensures EndOf(Parsed(old(Snapshot(all)), l.id, old(stream)))
        == if err.None? then Ended(Snapshot(all)) else Failed(err.value)
      ensures err.None? ==> Valid() && stream == "" && Grows(old(all), all).Sound?
      ensures err.None? ==> forall i {:trigger all[i]} | |old(all)| <= i < |all| :: fresh(all[i])
      ensures |stream| <= |old(stream)|
      decreases |stream|, 1
    {
      ghost var target := EndOf(Parsed(Snapshot(all), l.id, stream));
      while stream != ""
        invariant Valid() && Known(all, l) && Grows(old(all), all).Sound? && |stream| <= |old(stream)|
        invariant EndOf(Parsed(Snapshot(all), l.id, stream)) == target
        invariant forall i {:trigger all[i]} | |old(all)| <= i < |all| :: fresh(all[i])
        decreases |stream|
      {
        LineEnds(Snapshot(all), l.id, stream);
        ghost var was := all;
        err := ParseNext(l);
        if err.Some? {
          return;
        }
        GrowsOn(old(all), was, all);
        forall i {:trigger all[i]} | |old(all)| <= i < |all| ensures fresh(all[i]) {
          assert i < |was| ==> all[i] == was[i];
        }
      }
      err := None;
    }

    /** One line, and, if it opens a section, all that follow. */
    method ParseNext(l: LevelNode) returns (err: Option<Fault>)
      requires Valid() && Known(all, l) && stream != ""
      modifies this`stream, this`all, all
      ensures |stream| < |old(stream)|
      ensures err.None? ==> Valid() && Grows(old(all), all).Sound?
      ensures err.None? ==> forall i {:trigger all[i]} | |old(all)| <= i < |all| :: fresh(all[i])
      ensures EndOf(Parsed(old(Snapshot(all)), l.id, old(stream)))
        == if err.None? then EndOf(Parsed(Snapshot(all), l.id, stream)) else Failed(err.value)
      decreases |stream|, 0
    {
      LineEnds(Snapshot(all), l.id, stream);
      var lp;
      lp, err := NextLine(l);
      if err.None? && lp != l {
        ghost var was := all;
        err := Parse(lp);
        if err.None? {
          GrowsOn(old(all), was, all);
        }
      }
    }

    // ----- dump -------------------------------------------------------------------------------

    method Emit(s: string)
      modifies this`output
      ensures output == old(output) + s
    {
      output := output + s;
    }

    method EmitBrackets(c: char, n: nat)
      modifies this`output
      ensures output == old(output) + Repeat(c, n)
    {
      var i: nat := 0;
      while i < n
        invariant i <= n && output + Repeat(c, n - i) == old(output) + Repeat(c, n)
      {
        Assoc(output, [c], Repeat(c, n - i - 1));
        output := output + [c];
        i := i + 1;
      }
      assert output + "" == output;
    }

    method EmitHeading(depth: nat, sname: string)
      modifies this`output
      ensures output == old(output) + Heading(depth, sname)
    {
      ghost var before := output;
      if sname != "" {
        Emit("\n");
      }
      EmitBrackets('[', depth);
      if sname != "" {
        Emit(sname);
      }
      EmitBrackets(']', depth);
      if sname != "" {
        Emit("\n");
      }
      HeadingEmitted(before, depth, sname);
    }

    /** The values of a level. */
    method EmitEntries(l: LevelNode)
      requires forall k :: k in l.orderedValues ==> k in l.values
      modifies this`output
      ensures output == old(output) + EntriesText(EntriesOf(l.values, l.orderedValues))
    {
      var i: nat := 0;
      ghost var entries := EntriesOf(l.values, l.orderedValues);
      assert entries[0..] == entries;
      while i < |l.orderedValues|
        invariant i <= |l.orderedValues| && output + EntriesText(entries[i..]) == old(output) + EntriesText(entries)
      {
        var k := l.orderedValues[i];
        EntryAt(l.values, l.orderedValues, i);
        assert entries[i..][1..] == entries[i + 1..];
        Assoc(output, k + "=" + l.values[k] + "\n", EntriesText(entries[i + 1..]));
        Emit(k + "=" + l.values[k] + "\n");
        i := i + 1;
      }
      assert output + "" == output;
    }

    /** dump, of a level and all below it. */
    method Dump(l: LevelNode, sname: string)
      requires Valid() && Known(all, l)
      modifies this`output
      ensures output == old(output) + Dumped(TreeOf(Snapshot(all), l.id), l.depth, sname)
      decreases |all| - l.id, 1
    {
      ghost var t, before := TreeOf(Snapshot(all), l.id), output;
      ValuesOfTree(l, t);
      EmitHeading(l.depth, sname);
      EmitEntries(l);
      assert output == before + Heading(l.depth, sname) + EntriesText(t.values);
      DumpSections(l, t.sections);
      DumpedParts(before, t, l.depth, sname);
    }

    lemma ValuesOfTree(l: LevelNode, t: Tree)
      requires Valid() && Known(all, l) && t == TreeOf(Snapshot(all), l.id)
      ensures (forall k :: k in l.orderedValues ==> k in l.values) && t.values == EntriesOf(l.values, l.orderedValues)
    {
      assert LevelStands(Snapshot(all), l.id) && Snapshot(all)[l.id] == l.Rec();
    }

    method DumpSections(l: LevelNode, ghost sections: seq<Section>)
      requires Valid() && Known(all, l) && sections == TreeOf(Snapshot(all), l.id).sections
      modifies this`output
      ensures output == old(output) + SectionsText(sections, l.depth + 1)
      decreases |all| - l.id, 0, 1
    {
      ghost var depth := l.depth + 1;
      var i: nat := 0;
      assert sections[0..] == sections;
      assert |sections| == |l.orderedSections| by { assert Snapshot(all)[l.id] == l.Rec(); }
      while i < |l.orderedSections|
        invariant i <= |l.orderedSections| == |sections|
        invariant output + SectionsText(sections[i..], depth) == old(output) + SectionsText(sections, depth)
      {
        DumpNext(l, i, sections, depth);
        i := i + 1;
      }
      NothingLeft(output, sections, i, depth);
    }

    method DumpNext(l: LevelNode, i: nat, ghost sections: seq<Section>, ghost depth: nat)
      requires Valid() && Known(all, l) && sections == TreeOf(Snapshot(all), l.id).sections
      requires i < |l.orderedSections| == |sections| && depth == l.depth + 1
      modifies this`output
      ensures output + SectionsText(sections[i + 1..], depth) == old(output) + SectionsText(sections[i..], depth)
      decreases |all| - l.id, 0, 0, 1
    {
      NextSection(output, sections, i, depth);
      DumpSection(l, i, sections[i]);
    }

    method DumpSection(l: LevelNode, i: nat, ghost section: Section)
      requires Valid() && Known(all, l) && i < |l.orderedSections| == |TreeOf(Snapshot(all), l.id).sections|
      requires section == TreeOf(Snapshot(all), l.id).sections[i]
      modifies this`output
      ensures output == old(output) + Dumped(section.tree, l.depth + 1, section.name)
      decreases |all| - l.id, 0, 0, 0
    {
      var name := l.orderedSections[i];
      SectionIsThere(l, i);
      var child := l.sections[name];
      assert child.depth == l.depth + 1;
      Dump(child, name);
    }

    lemma SectionIsThere(l: LevelNode, i: nat)
      requires Valid() && Known(all, l) && i < |l.orderedSections|
      ensures l.orderedSections[i] in l.sections
      ensures var child := l.sections[l.orderedSections[i]];
        && Known(all, child) && child.id > l.id && child.depth == l.depth + 1
        && i < |TreeOf(Snapshot(all), l.id).sections|
        && TreeOf(Snapshot(all), l.id).sections[i] == Section(l.orderedSections[i], TreeOf(Snapshot(all), child.id))
    {
      var levels := Snapshot(all);
      var name := l.orderedSections[i];
      assert LevelStands(levels, l.id) && levels[l.id] == l.Rec() && Points(all, l.id);
      assert name in levels[l.id].sections && IsChild(levels, l.id, name);
      var child := l.sections[name];
      assert Known(all, child) && LevelStands(levels, child.id) && levels[child.id] == child.Rec();
      SectionAt(levels, l.id, |levels[l.id].orderedSections|, i);
    }
  }

  lemma NothingLeft(output: string, sections: seq<Section>, i: nat, depth: nat)
    requires i == |sections|
    ensures output + SectionsText(sections[i..], depth) == output
  {
    assert output + "" == output;
  }

  lemma NextSection(before: string, sections: seq<Section>, i: nat, depth: nat)
    requires i < |sections|
    ensures before + Dumped(sections[i].tree, depth, sections[i].name) + SectionsText(sections[i + 1..], depth)
      == before + SectionsText(sections[i..], depth)
  {
    assert sections[i..][1..] == sections[i + 1..];
    Assoc(before, Dumped(sections[i].tree, depth, sections[i].name), SectionsText(sections[i + 1..], depth));
  }

  lemma DumpedParts(before: string, t: Tree, depth: nat, sname: string)
    ensures before + Heading(depth, sname) + EntriesText(t.values) + SectionsText(t.sections, depth + 1)
      == before + Dumped(t, depth, sname)
  {
    Assoc4(before, Heading(depth, sname), EntriesText(t.values), SectionsText(t.sections, depth + 1));
    Assoc(Heading(depth, sname), EntriesText(t.values), SectionsText(t.sections, depth + 1));
  }

  lemma HeadingEmitted(before: string, depth: nat, sname: string)
    ensures sname != "" ==>
      before + "\n" + Repeat('[', depth) + sname + Repeat(']', depth) + "\n" == before + Heading(depth, sname)
    ensures sname == "" ==> before + Repeat('[', depth) + Repeat(']', depth) == before + Heading(depth, sname)
  {
    if sname == "" {
      assert Heading(depth, "") == Repeat('[', depth) + Repeat(']', depth);
    }
  }

  lemma GrowsOn(a: seq<LevelNode>, b: seq<LevelNode>, c: seq<LevelNode>)
    requires Grows(a, b).Sound? && Grows(b, c).Sound?
    ensures Grows(a, c).Sound? && |a| <= |b| <= |c|
    ensures forall i {:trigger c[i]} | 0 <= i < |b| :: c[i] == b[i]
  {
  }

  lemma LineEnds(levels: Levels, cur: nat, text: string)
    requires Soundness(levels).Sound? && cur < |levels| && text != ""
    ensures var st := AfterLineOf(levels, cur, text[..LineEnd(text)]);
      if st.State? then st.cur < |st.levels| && Parsed(levels, cur, text) == Parsed(st.levels, st.cur, AfterLine(text))
      else Parsed(levels, cur, text) == st
  {
    LineIsSound(levels, cur, text[..LineEnd(text)]);
  }

  lemma SameLevels(a: Levels, b: Levels)
    requires |a| == |b| && forall i {:trigger a[i]} | 0 <= i < |a| :: a[i] == b[i]
    ensures a == b
  {
  }

  /** The levels there were are still there, and those that have come are new. */
  ghost function Grows(was: seq<LevelNode>, all: seq<LevelNode>): Verdict {
    if was <= all then Sound else Broken
  }
}
