/// What parseFile does with particular inputs: the lines it skips, the
/// inputs that throw, the component it drops at the end, and the layout it
/// reads back exactly.
module ParseBehaviour {
  import opened Basics
  import opened JavaText
  import opened Components
  import opened Categories
  import opened ParseFile

  // ---------------------------------------------------------------------------
  // Where the loop goes wrong or drops input

  /// A line the EMPTY stage skips: not empty, not a descriptor, not a header.
  predicate Ignored(line: string) {
    line != [] && line[0] != '[' && line[|line| - 1] != ':'
  }

  lemma {:induction false} IgnoredLinesChangeNothing(m: Machine, lines: seq<string>)
    requires Staged(m) && m.stage == Empty
    requires forall k :: 0 <= k < |lines| ==> Ignored(lines[k])
    ensures Run(m, lines) == Continue(m)
    decreases |lines|
  {
    if lines != [] {
      assert Step(m, lines[0]) == Continue(m);
      IgnoredLinesChangeNothing(m, lines[1..]);
    }
  }

  /// A descriptor line before the first header throws, however many skipped
  /// lines precede it, and the document keeps what it held.
  lemma OrphanDescriptor(doc: seq<CategoryRec>, skipped: seq<string>, line: string, rest: seq<string>)
    requires forall k :: 0 <= k < |skipped| ==> Ignored(skipped[k])
    requires IsDescriptorLine(line)
    ensures ParseLines(doc, skipped + [line] + rest) == Parsed(doc, Some(OrphanComponent))
  {
    assert skipped + [line] + rest == skipped + ([line] + rest);
    RunConcat(Start(doc), skipped, [line] + rest);
    IgnoredLinesChangeNothing(Start(doc), skipped);
  }

  /// An empty line while no component awaits its designators throws from
  /// isCategoryLine, and the open category never reaches the document.
  lemma EmptyLineThrows(doc: seq<CategoryRec>, lines: seq<string>)
    requires Run(Start(doc), lines).Continue? && Run(Start(doc), lines).m.stage == Empty
    ensures ParseLines(doc, lines + [""]) == Parsed(Run(Start(doc), lines).m.categories, Some(CharIndexOutOfBounds))
  {
    RunConcat(Start(doc), lines, [""]);
  }

  /// A component still awaiting its designators when the input ends is
  /// dropped: the same input with one more blank line would have added it.
  lemma OpenComponentDropped(doc: seq<CategoryRec>, lines: seq<string>)
    requires Run(Start(doc), lines).Continue? && Run(Start(doc), lines).m.stage == ComponentRefDes
    ensures var m := Run(Start(doc), lines).m;
            var category, component := m.category.value, m.component.value;
            && ParseLines(doc, lines) == Parsed(m.categories + [category], None)
            && ParseLines(doc, lines + [""])
               == Parsed(m.categories + [category.(components := category.components + [component])], None)
  {
    RunConcat(Start(doc), lines, [""]);
  }

  /// A line such as `[x] 1 FOO:` is both a descriptor and a header; the
  /// descriptor test comes first, so it opens a component named `FOO:`.
  lemma DescriptorTestComesFirst(m: Machine)
    requires Staged(m) && m.stage == Empty && m.category.Some?
    ensures IsCategoryLine("[x] 1 FOO:") == Ok(true)
    ensures Step(m, "[x] 1 FOO:")
            == Continue(m.(stage := ComponentRefDes,
                           component := Some(Describe(Blank, Descriptor(true, "FOO:", None, None, None)))))
  {
    var d := Descriptor(true, "FOO:", None, None, None);
    assert Serialize(d) == "[x] 1 FOO:";
    ParseSerialize(d);
  }

  /// With no whitespace before `(`, the value is part of the name: `[ ] 1 X(10k)`
  /// names a component `X(10k)` with no value.
  lemma ValueWithoutSpaceIsName()
    ensures ParseDescriptor("[ ] 1 X(10k)") == Ok(Descriptor(false, "X(10k)", None, None, None))
  {
    var d := Descriptor(false, "X(10k)", None, None, None);
    assert NoSpace(d.name) by {
      assert forall c :: IsSpace(c) ==> c !in d.name;
    }
    assert Serialize(d) == "[ ] 1 X(10k)";
    ParseSerialize(d);
  }

  /// The optional fields are read only in the order value, description,
  /// package: text after the last field the pattern takes is ignored, so a
  /// value written after the description is not captured.
  lemma FieldsOnlyInOrder(d: Descriptor, v: string)
    requires WellFormed(d) && d.description.Some? && d.package.None?
    ensures ParseDescriptor(Serialize(d) + (" (" + v + ")")) == Ok(d)
  {
    var rest := " (" + v + ")";
    assert Next(rest, '[') && Spaced(rest);
    ParseWritten(if d.picked then 'x' else ' ', '1', d, rest);
  }

  /// `[ bad descriptor` starts like a descriptor, but the pattern matches nowhere in it.
  lemma BadDescriptorDoesNotMatch()
    ensures ParseDescriptor("[ bad descriptor") == Err(NoMatch)
  {
    var s := "[ bad descriptor";
    assert ']' !in s;
    forall j | 0 <= j <= |s|
      ensures MatchAt(s, j).None?
    {
    }
  }

  /// So after a header it throws, and the header's category is lost with it.
  lemma MalformedDescriptor(doc: seq<CategoryRec>, name: string)
    requires name == [] || name[0] != '['
    ensures ParseLines(doc, [name + ":", "[ bad descriptor"]) == Parsed(doc, Some(NoMatch))
  {
    var lines := [name + ":", "[ bad descriptor"];
    BadDescriptorDoesNotMatch();
    StepHeader(Start(doc), name);
    var m1 := Step(Start(doc), lines[0]).m;
    assert Step(m1, lines[1]) == Abort(doc, NoMatch);
    assert Run(Start(doc), lines) == Run(m1, lines[1..]);
  }

  /// A line made of a glyph, a one-digit quantity and a name, followed by
  /// anything that starts with whitespace, is a descriptor.
  lemma ShortDescriptorMatches(g: char, q: char, name: string, t: string)
    requires !IsLineTerminator(g) && IsDigit(q) && name != [] && NoSpace(name) && (t == [] || IsSpace(t[0]))
    ensures ParseDescriptor(['[', g, ']', ' ', q, ' '] + name + t).Ok?
  {
    var s := ['[', g, ']', ' ', q, ' '] + name + t;
    var d := 6 + |name|;
    assert forall k :: 6 <= k < d ==> s[k] == name[k - 6];
    assert d < |s| ==> s[d] == t[0];
    assert MandatoryAt(s, 0, 4, 5, 6, d);
    GreedyName(s, 0, 4, 5, 6, d);
  }

  /// The resistor line of the two-category list: not picked, and the value
  /// in parentheses after a space is captured.
  lemma ResistorLineMatches(line: string)
    requires line == "[ ] 2 RC0603FR-0710KL (10k)"
    ensures ParseDescriptor(line) == Ok(Descriptor(false, "RC0603FR-0710KL", Some("10k"), None, None))
  {
    var d := Descriptor(false, "RC0603FR-0710KL", Some("10k"), None, None);
    ResistorWritten();
    ExampleFields();
    ParseWritten(' ', '2', d, []);
  }

  /// The capacitor line of the two-category list: picked, with a description
  /// and a package and no value.
  lemma CapacitorLineMatches(line: string)
    requires line == "[X] 1 GRM188R71H104KA93D \"Decoupling cap\" [0603]"
    ensures ParseDescriptor(line)
            == Ok(Descriptor(true, "GRM188R71H104KA93D", None, Some("Decoupling cap"), Some("0603")))
  {
    var d := Descriptor(true, "GRM188R71H104KA93D", None, Some("Decoupling cap"), Some("0603"));
    CapacitorWritten();
    ExampleFields();
    ParseWritten('X', '1', d, []);
  }

  lemma ResistorWritten()
    ensures Written(' ', '2', Descriptor(false, "RC0603FR-0710KL", Some("10k"), None, None)) + []
            == "[ ] 2 RC0603FR-0710KL (10k)"
  {
    var d := Descriptor(false, "RC0603FR-0710KL", Some("10k"), None, None);
    assert Tail(d) == " (10k)";
  }

  lemma CapacitorWritten()
    ensures Written('X', '1', Descriptor(true, "GRM188R71H104KA93D", None, Some("Decoupling cap"), Some("0603"))) + []
            == "[X] 1 GRM188R71H104KA93D \"Decoupling cap\" [0603]"
  {
    var d := Descriptor(true, "GRM188R71H104KA93D", None, Some("Decoupling cap"), Some("0603"));
    CapacitorTail(d);
    CapacitorHead(d.name);
    CapacitorJoin();
  }

  lemma CapacitorHead(name: string)
    requires name == "GRM188R71H104KA93D"
    ensures ['[', 'X', ']', ' ', '1', ' '] + name == "[X] 1 GRM188R71H104KA93D"
  {
  }

  lemma CapacitorJoin()
    ensures "[X] 1 GRM188R71H104KA93D" + " \"Decoupling cap\" [0603]" + []
            == "[X] 1 GRM188R71H104KA93D \"Decoupling cap\" [0603]"
  {
  }

  lemma CapacitorTail(d: Descriptor)
    requires d.value.None? && d.description == Some("Decoupling cap") && d.package == Some("0603")
    ensures Tail(d) == " \"Decoupling cap\" [0603]"
  {
    assert Field('"', d.description, '"') == " \"Decoupling cap\"";
    assert Field('[', d.package, ']') == " [0603]";
  }

  /// The names and fields of the two example lines are well formed.
  lemma ExampleFields()
    ensures WellFormed(Descriptor(false, "RC0603FR-0710KL", Some("10k"), None, None))
    ensures WellFormed(Descriptor(true, "GRM188R71H104KA93D", None, Some("Decoupling cap"), Some("0603")))
  {
    assert forall c :: IsSpace(c) ==> c !in "RC0603FR-0710KL" && c !in "GRM188R71H104KA93D";
    assert ')' !in "10k" && '"' !in "Decoupling cap" && ']' !in "0603";
  }

  /// A header, a descriptor, its designator line and then a blank line: the
  /// blank line arrives in the EMPTY stage and throws before the category
  /// has been added.
  lemma BlankAfterDesignatorsThrows(name: string, descriptor: string, designators: string, lines: seq<string>)
    requires lines == [name + ":", descriptor, designators, ""]
    requires name == [] || name[0] != '['
    requires ParseDescriptor(descriptor).Ok? && !IsBlank(designators)
    ensures Run(Start([]), lines) == Abort([], CharIndexOutOfBounds)
  {
    var m0 := Start([]);
    var m1 := Machine(Empty, Some(CategoryRec(Some(name), [])), None, []);
    StepHeader(m0, name);
    var d := ParseDescriptor(descriptor).value;
    var m2 := m1.(stage := ComponentRefDes, component := Some(Describe(Blank, d)));
    StepDescriptor(m1, descriptor, d);
    var m3 := m2.(stage := Empty, component := Some(Describe(Blank, d).(refDes := Split(designators))));
    StepDesignators(m2, designators);
    StepEmptyLine(m3);
    RunNext(m0, lines, 0, m1);
    RunNext(m1, lines, 1, m2);
    RunNext(m2, lines, 2, m3);
    RunThrows(m3, lines, 3);
    assert lines[0..] == lines;
  }

  /// The first three lines of the two-category list are a header, a
  /// descriptor the pattern accepts and a designator line.
  lemma ResistorsLines(header: string, descriptor: string, designators: string)
    requires header == "Resistors:" && descriptor == "[ ] 2 RC0603FR-0710KL (10k)" && designators == "R1 R2"
    ensures header == "Resistors" + ":" && ParseDescriptor(descriptor).Ok? && !IsBlank(designators)
  {
    ResistorLineMatches(descriptor);
    assert designators[0] == 'R';
  }

  /// The first four lines of the two-category list: a header, a descriptor,
  /// its designators, and the blank line that was meant to end the category.
  lemma ResistorsBlockThrows(lines: seq<string>)
    requires lines == ["Resistors:", "[ ] 2 RC0603FR-0710KL (10k)", "R1 R2", ""]
    ensures Run(Start([]), lines) == Abort([], CharIndexOutOfBounds)
  {
    ResistorsLines(lines[0], lines[1], lines[2]);
    BlankAfterDesignatorsThrows("Resistors", lines[1], lines[2], lines);
  }

  /// A two-category pick list with designators, laid out as a reader of the
  /// code would expect (a blank line closing each category), read by the
  /// code as written: the blank line after `R1 R2` arrives in the EMPTY
  /// stage and throws, before any category has been added.
  lemma TwoCategoryListThrows(lines: seq<string>)
    requires lines == ["Resistors:", "[ ] 2 RC0603FR-0710KL (10k)", "R1 R2", "",
                       "Capacitors:", "[X] 1 GRM188R71H104KA93D \"Decoupling cap\" [0603]", "C7"]
    ensures ParseLines([], lines) == Parsed([], Some(CharIndexOutOfBounds))
  {
    assert lines == lines[..4] + lines[4..];
    RunConcat(Start([]), lines[..4], lines[4..]);
    ResistorsBlockThrows(lines[..4]);
  }

  // ---------------------------------------------------------------------------
  // The format the loop accepts, written out and read back

  /// Descriptor lines, each followed by the blank line that adds its component.
  function Layout(lines: seq<string>): seq<string> {
    if lines == [] then [] else [lines[0], ""] + Layout(lines[1..])
  }

  /// The components a parse makes of the descriptors: no designators.
  function Described(parts: seq<Descriptor>): (r: seq<ComponentRec>)
    ensures |r| == |parts|
    ensures forall j :: 0 <= j < |parts| ==> r[j] == Describe(Blank, parts[j])
  {
    if parts == [] then [] else [Describe(Blank, parts[0])] + Described(parts[1..])
  }

  /// A descriptor line followed by a blank line adds one component to the open category.
  lemma RunDescribedComponent(m: Machine, line: string, d: Descriptor)
    requires Staged(m) && m.stage == Empty && m.category.Some? && ParseDescriptor(line) == Ok(d)
    ensures var c := m.category.value;
            Run(m, [line, ""]) == Continue(m.(category := Some(c.(components := c.components + [Describe(Blank, d)])), component := None))
  {
    var lines := [line, ""];
    assert lines[0] == line && lines[1..] == [""] && [""][0] == "" && [""][1..] == [];
    var c := m.category.value;
    StepDescriptor(m, line, d);
    var m1 := m.(stage := ComponentRefDes, component := Some(Describe(Blank, d)));
    StepBlank(m1, "");
    var m2 := m.(category := Some(c.(components := c.components + [Describe(Blank, d)])), component := None);
    assert Step(m1, "") == Continue(m2);
    assert Run(m2, []) == Continue(m2);
    assert Run(m1, [""]) == Run(m2, []);
    assert Run(m, lines) == Run(m1, [""]);
  }

  /// The machine once `parts` have been added to its open category.
  function Filled(m: Machine, parts: seq<Descriptor>): Machine
    requires m.category.Some?
  {
    m.(category := Some(m.category.value.(components := m.category.value.components + Described(parts))),
       component := if parts == [] then m.component else None)
  }

  lemma FilledCons(m: Machine, parts: seq<Descriptor>)
    requires m.category.Some? && parts != []
    ensures var c := m.category.value;
            Filled(m.(category := Some(c.(components := c.components + [Describe(Blank, parts[0])])), component := None), parts[1..])
            == Filled(m, parts)
  {
    var c := m.category.value;
    assert Described(parts) == [Describe(Blank, parts[0])] + Described(parts[1..]);
    assert c.components + [Describe(Blank, parts[0])] + Described(parts[1..]) == c.components + Described(parts);
  }

  /// Laid out this way, every descriptor line adds its component to the open
  /// category, in order.
  lemma {:induction false} RunLayout(m: Machine, lines: seq<string>, parts: seq<Descriptor>)
    requires Staged(m) && m.stage == Empty && m.category.Some?
    requires |lines| == |parts| && forall j :: 0 <= j < |lines| ==> ParseDescriptor(lines[j]) == Ok(parts[j])
    ensures Run(m, Layout(lines)) == Continue(Filled(m, parts))
    decreases |lines|
  {
    var c := m.category.value;
    if lines != [] {
      var rest := Layout(lines[1..]);
      var m2 := m.(category := Some(c.(components := c.components + [Describe(Blank, parts[0])])), component := None);
      assert Run(m, Layout(lines)) == Run(m2, rest) by {
        assert Layout(lines) == [lines[0], ""] + rest;
        RunDescribedComponent(m, lines[0], parts[0]);
        RunConcat(m, [lines[0], ""], rest);
      }
      assert Run(m2, rest) == Continue(Filled(m2, parts[1..])) by {
        assert forall j :: 0 <= j < |lines[1..]| ==> ParseDescriptor(lines[1..][j]) == Ok(parts[1..][j]) by {
          forall j | 0 <= j < |lines[1..]|
            ensures ParseDescriptor(lines[1..][j]) == Ok(parts[1..][j])
          {
            assert lines[1..][j] == lines[j + 1] && parts[1..][j] == parts[j + 1];
          }
        }
        RunLayout(m2, lines[1..], parts[1..]);
      }
      FilledCons(m, parts);
    } else {
      assert c.components + Described(parts) == c.components;
    }
  }

  /// A category as a pick list writes it: a header, then one descriptor line
  /// per component, each followed by a blank line.
  datatype Section = Section(name: string, parts: seq<Descriptor>)

  predicate Writable(sections: seq<Section>) {
    forall i :: 0 <= i < |sections| ==>
      && (sections[i].name == [] || sections[i].name[0] != '[')
      && forall j :: 0 <= j < |sections[i].parts| ==> WellFormed(sections[i].parts[j])
  }

  function Lines(parts: seq<Descriptor>): (r: seq<string>)
    ensures |r| == |parts|
    ensures forall j :: 0 <= j < |parts| ==> r[j] == Serialize(parts[j])
  {
    if parts == [] then [] else [Serialize(parts[0])] + Lines(parts[1..])
  }

  function Render(sections: seq<Section>): seq<string> {
    if sections == [] then [] else [sections[0].name + ":"] + Layout(Lines(sections[0].parts)) + Render(sections[1..])
  }

  function SectionCategories(sections: seq<Section>): (r: seq<CategoryRec>)
    ensures |r| == |sections|
    ensures forall i :: 0 <= i < |sections| ==> r[i] == CategoryRec(Some(sections[i].name), Described(sections[i].parts))
  {
    if sections == [] then [] else [CategoryRec(Some(sections[0].name), Described(sections[0].parts))] + SectionCategories(sections[1..])
  }

  lemma LinesParse(parts: seq<Descriptor>)
    requires forall j :: 0 <= j < |parts| ==> WellFormed(parts[j])
    ensures forall j :: 0 <= j < |parts| ==> ParseDescriptor(Lines(parts)[j]) == Ok(parts[j])
  {
    forall j | 0 <= j < |parts|
      ensures ParseDescriptor(Lines(parts)[j]) == Ok(parts[j])
    {
      ParseSerialize(parts[j]);
    }
  }

  /// The machine after a written section: the category it opened holds its components.
  function AfterSection(m: Machine, section: Section): Machine {
    Filled(Machine(Empty, Some(CategoryRec(Some(section.name), [])), m.component, Commit(m)), section.parts)
  }

  /// One written section: its header commits the category open before it,
  /// and its lines fill the new category.
  lemma RunSection(m: Machine, section: Section, rest: seq<string>)
    requires Staged(m) && m.stage == Empty && Writable([section])
    ensures Run(m, [section.name + ":"] + Layout(Lines(section.parts)) + rest) == Run(AfterSection(m, section), rest)
  {
    var header, body := section.name + ":", Layout(Lines(section.parts));
    assert section == [section][0];
    StepHeader(m, section.name);
    var m1 := Machine(Empty, Some(CategoryRec(Some(section.name), [])), m.component, Commit(m));
    assert [header] + body + rest == [header] + (body + rest);
    assert Run(m, [header] + (body + rest)) == Run(m1, body + rest);
    LinesParse(section.parts);
    RunLayout(m1, Lines(section.parts), section.parts);
    RunConcat(m1, body, rest);
  }

  lemma CommitAfterSection(m: Machine, section: Section)
    ensures AfterSection(m, section).stage == Empty
    ensures Commit(AfterSection(m, section)) == Commit(m) + [CategoryRec(Some(section.name), Described(section.parts))]
  {
    assert [] + Described(section.parts) == Described(section.parts);
  }

  lemma SectionCategoriesCons(before: seq<CategoryRec>, sections: seq<Section>)
    requires sections != []
    ensures before + [CategoryRec(Some(sections[0].name), Described(sections[0].parts))] + SectionCategories(sections[1..])
            == before + SectionCategories(sections)
  {
    assert SectionCategories(sections)
        == [CategoryRec(Some(sections[0].name), Described(sections[0].parts))] + SectionCategories(sections[1..]);
  }

  lemma {:induction false} RunSections(m: Machine, sections: seq<Section>)
    requires Staged(m) && m.stage == Empty && Writable(sections)
    ensures Run(m, Render(sections)).Continue?
    ensures Run(m, Render(sections)).m.stage == Empty
    ensures Commit(Run(m, Render(sections)).m) == Commit(m) + SectionCategories(sections)
    decreases |sections|
  {
    if sections != [] {
      var rest := Render(sections[1..]);
      assert Render(sections) == [sections[0].name + ":"] + Layout(Lines(sections[0].parts)) + rest;
      assert Writable([sections[0]]) && Writable(sections[1..]) by {
        assert [sections[0]][0] == sections[0];
        assert forall i :: 0 <= i < |sections[1..]| ==> sections[1..][i] == sections[i + 1];
      }
      RunSection(m, sections[0], rest);
      var m2 := AfterSection(m, sections[0]);
      CommitAfterSection(m, sections[0]);
      RunSections(m2, sections[1..]);
      SectionCategoriesCons(Commit(m), sections);
    } else {
      assert Commit(m) + SectionCategories(sections) == Commit(m);
    }
  }

  /// A pick list written with a blank line after every descriptor line and no
  /// designator lines parses back to its categories, appended to the document.
  lemma ParseRender(doc: seq<CategoryRec>, sections: seq<Section>)
    requires Writable(sections)
    ensures ParseLines(doc, Render(sections)) == Parsed(doc + SectionCategories(sections), None)
  {
    RunSections(Start(doc), sections);
  }
}
