/// A pick-list document: the objects parseFile builds, and the lookup of a
/// category's components by name.
module Documents {
  import opened Basics
  import opened JavaText
  import opened Components
  import opened Categories
  import opened ParseFile

  // ---------------------------------------------------------------------------
  // Looking a category up by name

  /// What `getComponentsByCategoryName` meets first: a category whose name
  /// equals `name` ignoring case, a category with no name (which throws), or
  /// the end of the list.
  datatype Lookup = Found(index: nat) | NullName(index: nat) | Missing

  function FindCategoryFrom(cats: seq<CategoryRec>, name: string, i: nat): (r: Lookup)
    requires i <= |cats|
    ensures r.Found? ==> i <= r.index < |cats| && cats[r.index].name.Some?
                         && EqualsIgnoreCase(cats[r.index].name.value, name)
    ensures r.NullName? ==> i <= r.index < |cats| && cats[r.index].name.None?
    ensures !r.Missing? ==> forall j :: i <= j < r.index ==> cats[j].name.Some? && !EqualsIgnoreCase(cats[j].name.value, name)
    ensures r.Missing? ==> forall j :: i <= j < |cats| ==> cats[j].name.Some? && !EqualsIgnoreCase(cats[j].name.value, name)
    decreases |cats| - i
  {
    if i == |cats| then Missing
    else if cats[i].name.None? then NullName(i)
    else if EqualsIgnoreCase(cats[i].name.value, name) then Found(i)
    else FindCategoryFrom(cats, name, i + 1)
  }

  function FindCategory(cats: seq<CategoryRec>, name: string): Lookup {
    FindCategoryFrom(cats, name, 0)
  }

  /// Names that differ only in case find the same category.
  lemma {:induction false} LookupIgnoresCase(cats: seq<CategoryRec>, name: string, other: string, i: nat)
    requires i <= |cats| && EqualsIgnoreCase(name, other)
    ensures FindCategoryFrom(cats, name, i) == FindCategoryFrom(cats, other, i)
    decreases |cats| - i
  {
    if i < |cats| && cats[i].name.Some? {
      var n := cats[i].name.value;
      assert EqualsIgnoreCase(n, name) == EqualsIgnoreCase(n, other);
      LookupIgnoresCase(cats, name, other, i + 1);
    }
  }

  // ---------------------------------------------------------------------------
  // The document object

  class Document {
    var categories: seq<Category>
    /// The category and component objects the document holds.
    ghost var Repr: set<object>
    /// The states of those categories, in order.
    ghost var model: seq<CategoryRec>

    ghost predicate Valid()
      reads this, Repr
    {
      && |model| == |categories|
      && (forall i :: 0 <= i < |categories| ==> categories[i] in Repr)
      && (forall i, j :: 0 <= i < |categories| && 0 <= j < |categories[i].components| ==>
            categories[i].components[j] in Repr)
      && (forall i :: 0 <= i < |categories| ==> categories[i].Value() == model[i])
    }

    /// The categories' names and components, in order.
    ghost function Value(): seq<CategoryRec>
      reads this
    {
      model
    }

    /// `Document()`: no categories.
    constructor ()
      ensures Valid() && categories == [] && Value() == []
    {
      categories := [];
      Repr := {};
      model := [];
    }

    /// `Document(Collection<Category>)`: the given categories, in order.
    constructor WithCategories(categories: seq<Category>)
      ensures Valid() && this.categories == categories
      ensures |Value()| == |categories|
      ensures forall i :: 0 <= i < |categories| ==> Value()[i] == categories[i].Value()
    {
      this.categories := [];
      Repr := {};
      model := [];
      new;
      for i := 0 to |categories|
        invariant Valid() && this.categories == categories[..i] && |Value()| == i
        invariant forall j :: 0 <= j < i ==> Value()[j] == categories[j].Value()
      {
        AddCategory(categories[i]);
      }
    }

    /// `Document(FileReader)`: a new document filled by parseFile; if that
    /// throws, the constructor throws too and no document is returned.
    static method FromLines(lines: seq<string>) returns (r: Result<Document>)
      ensures ParseLines([], lines).error.Some? ==> r == Err(ParseLines([], lines).error.value)
      ensures ParseLines([], lines).error.None? ==> r.Ok? && fresh(r.value) && r.value.Valid() && r.value.Value() == ParseLines([], lines).categories
    {
      var document := new Document();
      var err := document.ParseFile(lines);
      if err.Some? {
        return Err(err.value);
      }
      return Ok(document);
    }

    /// `addCategory`: one category appended at the end.
    method AddCategory(category: Category)
      requires Valid()
      modifies this
      ensures Valid()
      ensures categories == old(categories) + [category]
      ensures Value() == old(Value()) + [category.Value()]
      ensures old(Repr) <= Repr
    {
      ghost var parts := set j | 0 <= j < |category.components| :: category.components[j] as object;
      ghost var n := |categories|;
      categories, model := categories + [category], model + [category.Value()];
      Repr := Repr + {category} + parts;
      forall i, j | 0 <= i < |categories| && 0 <= j < |categories[i].components|
        ensures categories[i].components[j] in Repr
      {
        if i < n {
          assert categories[i] == old(categories)[i];
        } else {
          assert categories[i].components[j] in parts;
        }
      }
      forall i | 0 <= i < |categories|
        ensures categories[i] in Repr && categories[i].Value() == model[i]
      {
        if i < n {
          assert categories[i] == old(categories)[i] && model[i] == old(model)[i];
        }
      }
    }

    /// The step parseFile takes on a header line and at the end of the
    /// input: the open category, if there is one, is added to the document.
    method CommitOpen(category: Category?, ghost m: Machine)
      requires Valid() && Value() == m.categories
      requires (category == null) == m.category.None?
      requires category != null ==> category.Value() == m.category.value
      modifies this
      ensures Valid() && Value() == Commit(m)
      ensures old(categories) <= categories && old(Repr) <= Repr
    {
      if category != null {
        AddCategory(category);
      }
    }

    /// parseFile's locals `category` and `component` hold the machine's open
    /// category and the component awaiting its designators, neither of
    /// which the document holds yet.
    ghost predicate Tracks(m: Machine, category: Category?, component: Component?)
      reads this, Repr, category, component, if category == null then [] else category.components
    {
      && Valid() && Staged(m) && Value() == m.categories
      && (category == null <==> m.category.None?)
      && (category != null ==> category !in Repr && category.Value() == m.category.value)
      && (m.stage == ComponentRefDes ==>
            && component != null && category != null
            && component !in Repr && component !in category.components
            && component.Value() == m.component.value)
    }

    /// A header line in the EMPTY stage: the open category, if any, is added
    /// to the document, and a new category named by the line is opened.
    method OpenCategory(line: string, ghost m: Machine, category: Category?, component: Component?)
      returns (category': Category)
      requires Tracks(m, category, component) && m.stage == Empty
      requires HeaderName(line).Ok?
      modifies this
      ensures old(categories) <= categories && fresh(category')
      ensures Tracks(Machine(Empty, Some(CategoryRec(Some(HeaderName(line).value), [])), m.component, Commit(m)),
                     category', component)
    {
      CommitOpen(category, m);
      category' := Category.FromHeaderLine(line);
    }

    /// One pass of parseFile's loop in the EMPTY stage: a descriptor line
    /// starts a component, a header line commits the open category and opens
    /// a new one, an empty line throws and any other line is skipped.
    method InEmpty(line: string, ghost m: Machine, category: Category?, component: Component?)
      returns (err: Option<Error>, stage': Stage, category': Category?, component': Component?)
      requires Tracks(m, category, component) && m.stage == Empty
      modifies this
      ensures old(categories) <= categories
      ensures category' != null ==> category' == category || fresh(category')
      ensures component' != null ==> component' == component || fresh(component')
      ensures Step(m, line).Abort? ==> err == Some(Step(m, line).error) && Valid() && Value() == Step(m, line).categories
      ensures Step(m, line).Continue? ==> err == None && stage' == Step(m, line).m.stage && Tracks(Step(m, line).m, category', component')
    {
      stage', category', component' := Empty, category, component;
      if IsDescriptorLine(line) {
        if category == null {
          return Some(OrphanComponent), stage', category', component';
        }
        var made := Component.FromDescriptorLine(line);
        if made.Err? {
          return Some(made.error), stage', category', component';
        }
        StepDescriptor(m, line, ParseDescriptor(line).value);
        component' := made.value;
        stage' := ComponentRefDes;
      } else {
        var isHeader := IsCategoryLine(line);
        if isHeader.Err? {
          return Some(isHeader.error), stage', category', component';
        }
        if isHeader.value {
          ghost var name := line[..|line| - 1];
          assert line == name + ":";
          assert name == [] || name[0] == line[0];
          StepHeader(m, name);
          category' := OpenCategory(line, m, category, component);
        } else {
          StepSkip(m, line);
        }
      }
      err := None;
    }

    /// One pass of parseFile's loop in the COMPONENT_REFDES stage: a blank
    /// line adds the component to the open category, any other line gives
    /// the component its designators; either way the stage goes back to EMPTY.
    method InComponentRefDes(line: string, ghost m: Machine, category: Category?, component: Component?)
      returns (err: Option<Error>, stage': Stage, category': Category?, component': Component?)
      requires Tracks(m, category, component) && m.stage == ComponentRefDes
      modifies category, component
      ensures old(categories) <= categories
      ensures category' != null ==> category' == category || fresh(category')
      ensures component' != null ==> component' == component || fresh(component')
      ensures Step(m, line).Abort? ==> err == Some(Step(m, line).error) && Valid() && Value() == Step(m, line).categories
      ensures Step(m, line).Continue? ==> err == None && stage' == Step(m, line).m.stage && Tracks(Step(m, line).m, category', component')
    {
      stage', category', component' := Empty, category, component;
      if IsBlank(line) {
        StepBlank(m, line);
        CloseComponent(m, category, component);
        component' := null;
      } else {
        StepDesignators(m, line);
        SetDesignators(line, m, category, component);
      }
      err := None;
    }

    /// A blank line in the COMPONENT_REFDES stage: the open component is
    /// added to the open category and parseFile forgets it.
    method CloseComponent(ghost m: Machine, category: Category?, component: Component?)
      requires Tracks(m, category, component) && m.stage == ComponentRefDes
      modifies category
      ensures var c := m.category.value;
              Tracks(m.(stage := Empty, category := Some(c.(components := c.components + [m.component.value])), component := None),
                     category, null)
    {
      ComponentValuesSnoc(category.components, component);
      category.AddComponent(component);
    }

    /// A non-blank line in the COMPONENT_REFDES stage: it becomes the open
    /// component's designator list, and the component stays out of the category.
    method SetDesignators(line: string, ghost m: Machine, category: Category?, component: Component?)
      requires Tracks(m, category, component) && m.stage == ComponentRefDes
      modifies component
      ensures Tracks(m.(stage := Empty, component := Some(m.component.value.(refDes := Split(line)))), category, component)
    {
      component.ParseRefDesLine(line);
    }

    /// `parseFile`: the loop over the lines, then the last open category is
    /// added. The categories already in the document stay where they are,
    /// and the document ends as `ParseLines` says, including when a line throws.
    method ParseFile(lines: seq<string>) returns (err: Option<Error>)
      requires Valid()
      modifies this
      ensures Valid()
      ensures old(categories) <= categories
      ensures Value() == ParseLines(old(Value()), lines).categories
      ensures err == ParseLines(old(Value()), lines).error
    {
      var stage := Empty;
      var category: Category? := null;
      var component: Component? := null;
      ghost var m := Start(Value());
      var i := 0;
      while i < |lines|
        invariant i <= |lines|
        decreases |lines| - i
        invariant Tracks(m, category, component) && m.stage == stage
        invariant Run(m, lines[i..]) == Run(Start(old(Value())), lines)
        invariant old(categories) <= categories
        invariant category != null ==> fresh(category)
        invariant component != null ==> fresh(component)
      {
        match stage {
          case Empty =>
            err, stage, category, component := InEmpty(lines[i], m, category, component);
          case ComponentRefDes =>
            err, stage, category, component := InComponentRefDes(lines[i], m, category, component);
        }
        if err.Some? {
          RunThrows(m, lines, i);
          return;
        }
        RunNext(m, lines, i, Step(m, lines[i]).m);
        m := Step(m, lines[i]).m;
        i := i + 1;
      }
      CommitOpen(category, m);
      err := None;
    }

    /// `getComponentsByCategoryName`: the components of the first category
    /// whose name equals `name` ignoring case, none when no name matches, and
    /// a NullPointerException when a category without a name comes first.
    method GetComponentsByCategoryName(name: string) returns (r: Result<Option<seq<Component>>>)
      requires Valid()
      ensures match FindCategory(Value(), name)
              case Found(i) => r == Ok(Some(categories[i].components))
              case NullName(_) => r == Err(NullPointer)
              case Missing => r == Ok(None)
    {
      var i := 0;
      while i < |categories|
        invariant i <= |categories|
        invariant FindCategoryFrom(Value(), name, i) == FindCategory(Value(), name)
      {
        var category := categories[i];
        if category.name.None? {
          return Err(NullPointer);
        }
        if EqualsIgnoreCase(category.name.value, name) {
          return Ok(Some(category.components));
        }
        i := i + 1;
      }
      return Ok(None);
    }
  }
}
