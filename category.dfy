/// A category of a pick list: the header-line recognizer, the category record
/// and the mutable Category object.
module Categories {
  import opened Basics
  import opened Components

  /// `Category.isCategoryLine`: the last character is `:`. Nothing is trimmed,
  /// and on the empty line `charAt(-1)` throws.
  function IsCategoryLine(line: string): (r: Result<bool>)
    ensures r.Err? <==> line == []
    ensures r.Err? ==> r.error == CharIndexOutOfBounds
    ensures r.Ok? ==> (r.value <==> line == line[..|line| - 1] + ":")
  {
    if line == [] then Err(CharIndexOutOfBounds) else Ok(line[|line| - 1] == ':')
  }

  /// `Category.parseLine` on the name it assigns: the header line less its final `:`.
  function HeaderName(line: string): (r: Result<string>)
    ensures r.Ok? <==> IsCategoryLine(line) == Ok(true)
    ensures r.Ok? ==> line == r.value + ":"
    ensures r == Err(CharIndexOutOfBounds) <==> line == []
    ensures r.Err? && line != [] ==> r.error == NotAHeader
  {
    match IsCategoryLine(line)
    case Err(e) => Err(e)
    case Ok(isHeader) => if isHeader then Ok(line[..|line| - 1]) else Err(NotAHeader)
  }

  /// Every name, `""` included, is read back from its header line.
  lemma HeaderNameOfHeader(name: string)
    ensures HeaderName(name + ":") == Ok(name)
  {
    var line := name + ":";
    assert line[..|line| - 1] == name;
  }

  /// A category's state.
  datatype CategoryRec = CategoryRec(name: Option<string>, components: seq<ComponentRec>)

  /// The states of a list of Component objects.
  function ComponentValues(cs: seq<Component>): (r: seq<ComponentRec>)
    reads cs
    ensures |r| == |cs|
  {
    if cs == [] then [] else ComponentValues(cs[..|cs| - 1]) + [cs[|cs| - 1].Value()]
  }

  /// Position `k` of the list holds the state of the `k`-th component.
  lemma {:induction false} ComponentValuesAt(cs: seq<Component>, k: nat)
    requires k < |cs|
    ensures ComponentValues(cs)[k] == cs[k].Value()
    decreases |cs|
  {
    if k < |cs| - 1 {
      ComponentValuesAt(cs[..|cs| - 1], k);
    }
  }

  lemma ComponentValuesSnoc(cs: seq<Component>, component: Component)
    ensures ComponentValues(cs + [component]) == ComponentValues(cs) + [component.Value()]
  {
    assert (cs + [component])[..|cs|] == cs;
  }

  class Category {
    var name: Option<string>
    var components: seq<Component>

    function Value(): CategoryRec
      reads this, components
    {
      CategoryRec(name, ComponentValues(components))
    }

    /// `Category()`: no name (null) and no components.
    constructor ()
      ensures name == None && components == []
      ensures Value() == CategoryRec(None, [])
    {
      name := None;
      components := [];
    }

    /// `Category(String name)`.
    constructor Named(name: string)
      ensures this.name == Some(name) && components == []
    {
      this.name := Some(name);
      components := [];
    }

    /// `Category(String name, Collection<Component> components)`: the given
    /// components, in order.
    constructor WithComponents(name: string, components: seq<Component>)
      ensures this.name == Some(name) && this.components == components
    {
      this.name := Some(name);
      this.components := components;
    }

    /// `parseLine`: on a header line the name becomes the line less its final
    /// `:`; otherwise the method throws and nothing changes.
    method ParseLine(line: string) returns (err: Option<Error>)
      modifies this
      ensures components == old(components)
      ensures HeaderName(line).Ok? ==> err == None && name == Some(HeaderName(line).value)
      ensures HeaderName(line).Err? ==> err == Some(HeaderName(line).error) && name == old(name)
    {
      var isHeader := IsCategoryLine(line);
      if isHeader.Err? {
        return Some(isHeader.error);
      }
      if !isHeader.value {
        return Some(NotAHeader);
      }
      name := Some(line[..|line| - 1]);
      err := None;
    }

    /// A category opened on a header line the way parseFile opens one: a
    /// new unnamed category whose `parseLine` then sets the name.
    static method FromHeaderLine(line: string) returns (category: Category)
      requires HeaderName(line).Ok?
      ensures fresh(category) && category.Value() == CategoryRec(Some(HeaderName(line).value), [])
    {
      category := new Category();
      var err := category.ParseLine(line);
    }

    /// `addComponent`: one component appended at the end.
    method AddComponent(component: Component)
      modifies this
      ensures name == old(name) && components == old(components) + [component]
    {
      components := components + [component];
    }
  }
}
