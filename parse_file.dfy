/// The line state machine of Document.parseFile, stated on records: one
/// transition per line, the loop, and the final step that adds the last
/// open category.
module ParseFile {
  import opened Basics
  import opened JavaText
  import opened Components
  import opened Categories

  /// The stages parseFile uses (it never enters CATEGORY or COMPONENT_DESCRIPTOR).
  datatype Stage = Empty | ComponentRefDes

  /// The variables of parseFile: the stage, the open category, the open
  /// component, and the document's category list.
  datatype Machine = Machine(
    stage: Stage,
    category: Option<CategoryRec>,
    component: Option<ComponentRec>,
    categories: seq<CategoryRec>)

  /// A component is awaiting its designators only inside an open category.
  predicate Staged(m: Machine) {
    m.stage == ComponentRefDes ==> m.category.Some? && m.component.Some?
  }

  /// One line either lets parsing go on, or throws, leaving the document with
  /// the categories it holds at that moment.
  datatype StepResult = Continue(m: Machine) | Abort(categories: seq<CategoryRec>, error: Error)

  /// The document's list once the open category, if any, has been added.
  function Commit(m: Machine): seq<CategoryRec> {
    if m.category.Some? then m.categories + [m.category.value] else m.categories
  }

  /// One iteration of parseFile's loop.
  function Step(m: Machine, line: string): (r: StepResult)
    requires Staged(m)
    ensures r.Continue? ==> Staged(r.m)
    ensures r.Continue? ==> m.categories <= r.m.categories
    ensures r.Abort? ==> r.categories == m.categories
  {
    if m.stage == Empty then
      if IsDescriptorLine(line) then
        if m.category.None? then Abort(m.categories, OrphanComponent)
        else
          var parsed := ParseDescriptor(line);
          if parsed.Err? then Abort(m.categories, parsed.error)
          else Continue(m.(stage := ComponentRefDes, component := Some(Describe(Blank, parsed.value))))
      else
        var isHeader := IsCategoryLine(line);
        if isHeader.Err? then Abort(m.categories, isHeader.error)
        else if isHeader.value then
          var categories := Commit(m);
          // parseLine cannot throw on a line isCategoryLine accepted.
          var name := HeaderName(line).value;
          Continue(Machine(Empty, Some(CategoryRec(Some(name), [])), m.component, categories))
        else
          // Not empty (isCategoryLine threw on ""), so the isEmpty test fails: skipped.
          Continue(m)
    else
      var category, component := m.category.value, m.component.value;
      if IsBlank(line) then
        Continue(m.(stage := Empty, category := Some(category.(components := category.components + [component])),
                    component := None))
      else
        // The designators are set, but the component is not added to the category.
        Continue(m.(stage := Empty, component := Some(component.(refDes := Split(line)))))
  }

  // The transitions one at a time. Each lemma below is one branch of `Step`
  // read off its body, with nothing independent to add; they exist so that
  // the loop passes of `Document.ParseFile` and the behaviour lemmas can name
  // the transition a line takes without unfolding `Step`.

  lemma StepHeader(m: Machine, name: string)
    requires Staged(m) && m.stage == Empty && (name == [] || name[0] != '[')
    ensures Step(m, name + ":") == Continue(Machine(Empty, Some(CategoryRec(Some(name), [])), m.component, Commit(m)))
  {
    HeaderNameOfHeader(name);
    assert (name + ":")[|name|] == ':';
  }

  lemma StepDescriptor(m: Machine, line: string, d: Descriptor)
    requires Staged(m) && m.stage == Empty && m.category.Some? && ParseDescriptor(line) == Ok(d)
    ensures Step(m, line) == Continue(m.(stage := ComponentRefDes, component := Some(Describe(Blank, d))))
  {
  }

  lemma StepBlank(m: Machine, line: string)
    requires Staged(m) && m.stage == ComponentRefDes && IsBlank(line)
    ensures var category := m.category.value;
            Step(m, line) == Continue(m.(stage := Empty, category := Some(category.(components := category.components + [m.component.value])),
                                         component := None))
  {
  }

  lemma StepDesignators(m: Machine, line: string)
    requires Staged(m) && m.stage == ComponentRefDes && !IsBlank(line)
    ensures Step(m, line) == Continue(m.(stage := Empty, component := Some(m.component.value.(refDes := Split(line)))))
  {
  }

  lemma StepSkip(m: Machine, line: string)
    requires Staged(m) && m.stage == Empty && line != [] && !IsDescriptorLine(line) && line[|line| - 1] != ':'
    ensures Step(m, line) == Continue(m)
  {
  }

  lemma StepEmptyLine(m: Machine)
    requires Staged(m) && m.stage == Empty
    ensures Step(m, "") == Abort(m.categories, CharIndexOutOfBounds)
  {
  }

  /// The loop over all lines.
  function Run(m: Machine, lines: seq<string>): (r: StepResult)
    requires Staged(m)
    ensures r.Continue? ==> Staged(r.m)
    decreases |lines|
  {
    if lines == [] then Continue(m)
    else
      match Step(m, lines[0])
      case Abort(categories, e) => Abort(categories, e)
      case Continue(m') => Run(m', lines[1..])
  }

  function Start(doc: seq<CategoryRec>): Machine {
    Machine(Empty, None, None, doc)
  }

  /// The categories a document holds after parseFile, and the exception it threw, if any.
  datatype Parsed = Parsed(categories: seq<CategoryRec>, error: Option<Error>)

  /// parseFile on a document holding `doc`: the loop, then the last open
  /// category is added; an exception skips that last step. Either way it
  /// only appends to the categories the document already holds.
  function ParseLines(doc: seq<CategoryRec>, lines: seq<string>): (r: Parsed)
    ensures doc <= r.categories
  {
    RunKeepsCategories(Start(doc), lines);
    match Run(Start(doc), lines)
    case Abort(categories, e) => Parsed(categories, Some(e))
    case Continue(m) => Parsed(Commit(m), None)
  }

  // ---------------------------------------------------------------------------
  // Properties of the state machine

  /// Running two pieces of input one after the other is running their concatenation.
  lemma {:induction false} RunConcat(m: Machine, a: seq<string>, b: seq<string>)
    requires Staged(m)
    ensures Run(m, a + b) == match Run(m, a)
                             case Continue(m') => Run(m', b)
                             case Abort(c, e) => Abort(c, e)
    decreases |a|
  {
    if a != [] {
      assert (a + b)[0] == a[0] && (a + b)[1..] == a[1..] + b;
      match Step(m, a[0])
      case Abort(c, e) =>
        assert Run(m, a) == Abort(c, e) && Run(m, a + b) == Abort(c, e);
      case Continue(m') =>
        assert Run(m, a) == Run(m', a[1..]) && Run(m, a + b) == Run(m', a[1..] + b);
        RunConcat(m', a[1..], b);
    } else {
      assert a + b == b;
    }
  }

  /// The loop seen from line `i`: one step, then the rest.
  lemma RunAt(m: Machine, lines: seq<string>, i: nat)
    requires Staged(m) && i < |lines|
    ensures Run(m, lines[i..]) == match Step(m, lines[i])
                                  case Continue(m') => Run(m', lines[i + 1..])
                                  case Abort(c, e) => Abort(c, e)
  {
    assert lines[i..][0] == lines[i] && lines[i..][1..] == lines[i + 1..];
  }

  /// A step that lets parsing go on leaves the rest of the lines to the next state.
  lemma RunNext(m: Machine, lines: seq<string>, i: nat, next: Machine)
    requires Staged(m) && i < |lines| && Step(m, lines[i]) == Continue(next)
    ensures Run(m, lines[i..]) == Run(next, lines[i + 1..])
  {
    RunAt(m, lines, i);
  }

  /// A step that throws ends the loop with what it threw.
  lemma RunThrows(m: Machine, lines: seq<string>, i: nat)
    requires Staged(m) && i < |lines| && Step(m, lines[i]).Abort?
    ensures Run(m, lines[i..]) == Step(m, lines[i])
  {
    RunAt(m, lines, i);
  }

  /// The loop never removes or reorders a category of the list, whether it
  /// finishes or throws.
  lemma {:induction false} RunKeepsCategories(m: Machine, lines: seq<string>)
    requires Staged(m)
    ensures match Run(m, lines)
            case Continue(m') => m.categories <= m'.categories
            case Abort(c, _) => m.categories <= c
    decreases |lines|
  {
    if lines != [] {
      match Step(m, lines[0])
      case Abort(_, _) =>
      case Continue(m') => RunKeepsCategories(m', lines[1..]);
    }
  }

  /// Whatever the loop has added to the list by some line stays in the
  /// document, even when a later line throws.
  lemma CommittedCategoriesSurvive(doc: seq<CategoryRec>, lines: seq<string>, k: nat)
    requires k <= |lines| && Run(Start(doc), lines[..k]).Continue?
    ensures Run(Start(doc), lines[..k]).m.categories <= ParseLines(doc, lines).categories
  {
    assert lines == lines[..k] + lines[k..];
    RunConcat(Start(doc), lines[..k], lines[k..]);
    var m := Run(Start(doc), lines[..k]).m;
    RunKeepsCategories(m, lines[k..]);
  }

  /// Every component the parser has added to a category has no designators:
  /// a designator line never adds its component, and a blank line adds one
  /// whose designators were never set.
  ghost predicate Bare(c: CategoryRec) {
    forall j :: 0 <= j < |c.components| ==> c.components[j].refDes == []
  }

  ghost predicate NoDesignators(cats: seq<CategoryRec>) {
    forall i :: 0 <= i < |cats| ==> Bare(cats[i])
  }

  ghost predicate DesignatorFree(m: Machine, from: nat) {
    && from <= |m.categories|
    && NoDesignators(m.categories[from..])
    && (m.category.Some? ==> Bare(m.category.value))
    && (m.stage == ComponentRefDes ==> m.component.Some? && m.component.value.refDes == [])
  }

  lemma {:induction false} RunDesignatorFree(m: Machine, lines: seq<string>, from: nat)
    requires Staged(m) && DesignatorFree(m, from)
    ensures match Run(m, lines)
            case Continue(m') => DesignatorFree(m', from)
            case Abort(c, _) => from <= |c| && NoDesignators(c[from..])
    decreases |lines|
  {
    if lines != [] {
      var r := Step(m, lines[0]);
      match r
      case Abort(_, _) =>
      case Continue(m') =>
        if m.stage == ComponentRefDes && IsBlank(lines[0]) {
          var c, k := m.category.value, m.component.value;
          assert forall j :: 0 <= j < |c.components| + 1 ==> (c.components + [k])[j].refDes == [];
        }
        assert m'.categories == m.categories || m'.categories == m.categories + [m.category.value];
        assert m'.categories[from..] == m.categories[from..]
            || m'.categories[from..] == m.categories[from..] + [m.category.value];
        RunDesignatorFree(m', lines[1..], from);
    }
  }

  /// Every component in the categories parseFile adds has an empty designator
  /// list, so its quantity is 0.
  lemma ParsedComponentsHaveNoDesignators(doc: seq<CategoryRec>, lines: seq<string>)
    ensures |doc| <= |ParseLines(doc, lines).categories|
    ensures NoDesignators(ParseLines(doc, lines).categories[|doc|..])
  {
    RunDesignatorFree(Start(doc), lines, |doc|);
    match Run(Start(doc), lines)
    case Abort(_, _) =>
    case Continue(m) =>
      var c := Commit(m);
      assert c[|doc|..] == m.categories[|doc|..] || c[|doc|..] == m.categories[|doc|..] + [m.category.value];
  }
}
