# jPickLE pick-list parser, modelled in Dafny

jPickLE reads a *pick list*: a text file of component categories for
hand-assembling a circuit board. A header line `Name:` opens a category. A
descriptor line such as `[ ] 2 RC0603FR-0710KL (10k)` opens a component: a
picked glyph, a quantity hint, a name, and optional value, description and
package. The next line holds the component's reference designators
(`R1 R2`), or a blank line ends the component. `Document.parseFile` walks
the lines with a two-stage state machine and fills a `Document` with
`Category` objects, which hold `Component` objects.

The model keeps the Java objects as Dafny classes:

- `Components.Component` has the six fields of `Component.java`.
- `Categories.Category` holds a `seq<Component>`.
- `Documents.Document` holds a `seq<Category>`.

Each class has a `Value()` snapshot as a record (`ComponentRec`,
`CategoryRec`, a `seq<CategoryRec>`). The methods change the objects in
place, and their contracts relate the new snapshot to the old one.

The descriptor regular expression of `Component.java:62` is written out as
a matcher, `Components.MatchAt`. It tries the pattern at one start
position. The mandatory part leaves no choice to backtracking, and each
optional group is taken exactly when it matches where it stands.
`Components.FindFrom` scans start positions left to right, as
`Matcher.find()` does.

`parseFile` is specified by a state machine on records (module
`ParseFile`):

- `Step` is one pass of the loop.
- `Run` is the loop.
- `ParseLines` is the loop followed by the final commit of the open
  category.

`Documents.Document.ParseFile` is the imperative loop over a `seq<string>`
of lines. It is proved to leave the document exactly as `ParseLines` says,
including on the line that throws.

Modules:

- `Basics`: option, result and error types.
- `JavaText`: the character classes, maximal runs, `String.split("\\s")`,
  `isBlank` and `equalsIgnoreCase`.
- `Components`: `Component.java`.
- `Categories`: `Category.java`.
- `ParseFile`: the specification of `parseFile`.
- `Documents`: `Document.java`.
- `ParseBehaviour`: consequences of the code as written, for particular
  inputs and for a whole family of well-formed files.

### Sharp edges of the code as written

The model follows the code. A reader of the field names and comments might
expect otherwise in these places:

- A descriptor line is one whose *first* character is `[`. No whitespace
  is skipped (`Component.java:108-113`).
- A header is a line whose last character is `:`. There is no trimming.
  The empty line makes `isCategoryLine` call `charAt(-1)`, which throws
  (`Category.java:69-71`). So an empty line in the EMPTY stage throws
  instead of being ignored (`ParseBehaviour.EmptyLineThrows`).
- Designators are split at every single whitespace character, with Java's
  `split` rules: leading and inner empty pieces are kept and trailing ones
  are dropped (`Component.java:93`). They are not split on runs of
  whitespace.
- A designator line sets the component's designators but does not add the
  component to its category (`Document.java:119-122`). Only a blank line
  adds it. So every component the parser adds has no designators
  (`ParseFile.ParsedComponentsHaveNoDesignators`).
- A component still open at the end of the input is dropped
  (`ParseBehaviour.OpenComponentDropped`).
- When a line throws, the categories committed before it stay in the
  document (`ParseFile.CommittedCategoriesSurvive`). Errors carry no line
  number.
- A two-category pick list with a designator line after each descriptor
  and a blank line closing each category throws
  (`ParseBehaviour.TwoCategoryListThrows`). The blank line
  after `R1 R2` arrives in the EMPTY stage and reaches `isCategoryLine("")`.
- An empty input gives a document with no categories. This is the case
  `sections == []` of `ParseBehaviour.ParseRender`.

## Model

| member | source | states |
|---|---|---|
| JavaText.RunEnd | src/com/innoveworkshop/pickle/models/Component.java:62 | A greedy `\s+`, `\d+` or `[^\s]+` from `i` ends at the first character outside the class: every character before the end is in the class, and the one at the end is not |
| JavaText.Pieces | src/com/innoveworkshop/pickle/models/Component.java:93 | Cutting at every whitespace character gives one more piece than there are separators, and no piece holds whitespace |
| JavaText.DropTrailingEmpty | src/com/innoveworkshop/pickle/models/Component.java:93 | The result is a prefix of the pieces, everything dropped is empty, and the last piece kept is not empty |
| JavaText.JoinPieces | src/com/innoveworkshop/pickle/models/Component.java:93 | The pieces glued back with their separators give the original line: `split` loses only separators |
| JavaText.Split | src/com/innoveworkshop/pickle/models/Component.java:93 | No designator holds whitespace. A line without whitespace comes back whole. A line with whitespace gives its pieces up to the last non-empty one, and every piece dropped is empty (limit 0, not limit -1) |
| JavaText.SplitCount | src/com/innoveworkshop/pickle/models/Component.java:93 | A line that does not end in whitespace yields exactly one designator more than it has whitespace characters, doubled separators included |
| JavaText.LastPieceNonEmpty | src/com/innoveworkshop/pickle/models/Component.java:93 | A line whose last character is not whitespace has a non-empty last piece, so `split` drops nothing |
| JavaText.SplitJoin | src/com/innoveworkshop/pickle/models/Component.java:93 | Non-empty whitespace-free designators joined by single whitespace characters split back into exactly those designators |
| JavaText.IsBlank | src/com/innoveworkshop/pickle/models/Document.java:109 | The empty line and every line of `\s` characters are blank, and a blank line holds neither `[` nor `:` |
| Components.IndexOf | src/com/innoveworkshop/pickle/models/Component.java:62 | `[^c]+` from `i` stops at the first `c` or at the end of the line |
| Components.Group | src/com/innoveworkshop/pickle/models/Component.java:62 | An optional group yields nothing and does not move, or yields a non-empty capture without its closing character and moves forward |
| Components.GroupMatchesDelimited | src/com/innoveworkshop/pickle/models/Component.java:62 | `(open [^close]+ close \s*)?` captures `v` at `p` exactly when `open`, a non-empty `v` free of `close`, and `close` stand there; it then moves past the closing character and the whitespace after it |
| Components.NameSpan | src/com/innoveworkshop/pickle/models/Component.java:62 | When the mandatory part matches, the name is a non-empty whitespace-free run that ends at whitespace or at the end of the line |
| Components.Optionals | src/com/innoveworkshop/pickle/models/Component.java:62 | Value, description and package are each absent, or non-empty and free of `)`, `"` and `]` respectively |
| Components.MatchAt | src/com/innoveworkshop/pickle/models/Component.java:62 | A match at `i` starts with `[`, a glyph that is not a line terminator, and `]`; its name is non-empty and whitespace-free; its optional fields are well formed |
| Components.GreedyName | src/com/innoveworkshop/pickle/models/Component.java:62 | Whenever the mandatory part can match at `i` in any way, `MatchAt` finds a match with the same name start and a name at least as long |
| Components.MatchIsMandatory | src/com/innoveworkshop/pickle/models/Component.java:62-69 | Whatever `MatchAt` finds is a match of `\[.\]\s+\d+\s+[^\s]+` whose name run starts at the captured `nameAt`, and the captured name is exactly the line's text there, ending at whitespace or at the end of the line. With `GreedyName` this makes the name the maximal run after the quantity |
| Components.IsDescriptorLine | src/com/innoveworkshop/pickle/models/Component.java:108-113 | A line is a descriptor exactly when `[` is a prefix of it; the empty line is not one |
| Components.FindFrom | src/com/innoveworkshop/pickle/models/Component.java:63-64 | The start position found lies between `i` and the end of the line |
| Components.FindFromLeftmost | src/com/innoveworkshop/pickle/models/Component.java:63-64 | `find()` returns a start where the pattern matches, and it matches at no earlier start; when nothing is returned it matches at no start at all |
| Components.Find | src/com/innoveworkshop/pickle/models/Component.java:63-64 | The groups reported are those of the start position the left-to-right scan returns |
| Components.FindLeftmost | src/com/innoveworkshop/pickle/models/Component.java:63-64 | `find()` reports the match at the start it returns, no earlier start matches, and when it reports none no start matches at all |
| Components.ParseDescriptor | src/com/innoveworkshop/pickle/models/Component.java:56-85 | Throws NotADescriptor exactly when `isDescriptorLine` fails, and NoMatch exactly when the guard passes and `find()` fails, and nothing else. On success the fields are well formed and `picked` means the glyph is not a space |
| Components.MatchFields | src/com/innoveworkshop/pickle/models/Component.java:62-84 | The descriptor built from a match's groups is read off the line at that match: `picked` from the character after its `[`, the name as the line's own text at `nameAt` ending at whitespace or at the end of the line, and value, description and package as the groups read after that name |
| Components.ParsedFieldsReadLine | src/com/innoveworkshop/pickle/models/Component.java:63-84 | Every field a successful `parseDescriptorLine` assigns is read off the line at the match `find()` reports, so callers need not unfold the parse |
| Components.NoMatchMeansNowhere | src/com/innoveworkshop/pickle/models/Component.java:63-65 | The NoMatch exception comes exactly from a line that passes the guard and matches at no start position |
| Components.ParseWritten | src/com/innoveworkshop/pickle/models/Component.java:62-84 | A well-formed descriptor written with any glyph agreeing with `picked` and any one-digit quantity hint parses back to the same fields when the text after it is nothing, or one space and then a non-whitespace character that opens none of the groups left empty |
| Components.ParseSerialize | src/com/innoveworkshop/pickle/models/Component.java:62-84 | Writing a well-formed descriptor in slot order and parsing it again gives back the same fields (the quantity hint aside) |
| Components.Component.constructor | src/com/innoveworkshop/pickle/models/Component.java:25-32 | Not picked, empty name, no value, description or package, no designators, quantity 0 |
| Components.Component.FromDescriptorLine | src/com/innoveworkshop/pickle/models/Component.java:43-46 | The constructor throws what `parseDescriptorLine` throws; otherwise it returns a new blank component with the parsed fields |
| Components.Component.ParseDescriptorLine | src/com/innoveworkshop/pickle/models/Component.java:56-85 | On failure the exception is returned and nothing changes. On success the five descriptor fields are overwritten, absent groups becoming null, and the designators are kept |
| Components.Component.ParseRefDesLine | src/com/innoveworkshop/pickle/models/Component.java:92-100 | The designators become the pieces of `split("\\s")` in order, the quantity becomes their number, and no other field changes |
| Components.Component.Quantity | src/com/innoveworkshop/pickle/models/Component.java:120-122 | The quantity is the number of reference designators in the component's state |
| Components.Component.AddReferenceDesignator | src/com/innoveworkshop/pickle/models/Component.java:240-242 | One designator is appended at the end, the quantity grows by one, and nothing else changes |
| Categories.HeaderName | src/com/innoveworkshop/pickle/models/Category.java:54-61 | A name exists exactly for header lines, and the line is that name followed by `:`. The empty line throws CharIndexOutOfBounds, and any other line that is not a header throws NotAHeader |
| Categories.HeaderNameOfHeader | src/com/innoveworkshop/pickle/models/Category.java:60 | Every name, the empty one included, is read back from its header line |
| Categories.IsCategoryLine | src/com/innoveworkshop/pickle/models/Category.java:69-71 | Throws CharIndexOutOfBounds exactly on the empty line; otherwise a line is a header exactly when it is itself less its last character followed by `:` |
| Categories.Category.constructor | src/com/innoveworkshop/pickle/models/Category.java:19-22 | No name (null) and no components |
| Categories.Category.Named | src/com/innoveworkshop/pickle/models/Category.java:29-32 | The given name and no components |
| Categories.Category.WithComponents | src/com/innoveworkshop/pickle/models/Category.java:40-43 | The given name and exactly the given components, in order |
| Categories.Category.ParseLine | src/com/innoveworkshop/pickle/models/Category.java:54-61 | On a header line the name becomes the line less its final `:`. Otherwise it throws (NotAHeader, or CharIndexOutOfBounds on `""`) and the name is unchanged. The components never change |
| Categories.Category.FromHeaderLine | src/com/innoveworkshop/pickle/models/Document.java:98-99 | A new category named by the header line, with no components |
| Categories.Category.AddComponent | src/com/innoveworkshop/pickle/models/Category.java:114-116 | One component is appended at the end, earlier ones keep their order, and the name is unchanged |
| ParseFile.Step | src/com/innoveworkshop/pickle/models/Document.java:79-126 | One line never removes a committed category. A line that throws leaves the list as it was |
| ParseFile.StepHeader | src/com/innoveworkshop/pickle/models/Document.java:92-101 | In EMPTY, a header commits the open category, even one with no components, and opens a new one named by the line |
| ParseFile.StepDescriptor | src/com/innoveworkshop/pickle/models/Document.java:81-91 | In EMPTY with a category open, a descriptor the grammar accepts opens a blank component with its fields, and the stage becomes COMPONENT_REFDES |
| ParseFile.StepBlank | src/com/innoveworkshop/pickle/models/Document.java:109-116 | In COMPONENT_REFDES, a blank line appends the open component to the open category and returns to EMPTY |
| ParseFile.StepDesignators | src/com/innoveworkshop/pickle/models/Document.java:119-122 | In COMPONENT_REFDES, a non-blank line sets the designators and returns to EMPTY without appending the component |
| ParseFile.StepSkip | src/com/innoveworkshop/pickle/models/Document.java:102-106 | In EMPTY, a non-empty line that is neither a descriptor nor a header changes nothing |
| ParseFile.StepEmptyLine | src/com/innoveworkshop/pickle/models/Document.java:92 | In EMPTY, the empty line throws from `isCategoryLine` and leaves the list as it was |
| ParseFile.Run | src/com/innoveworkshop/pickle/models/Document.java:78-127 | The loop keeps the open component inside an open category |
| ParseFile.RunConcat | src/com/innoveworkshop/pickle/models/Document.java:78-127 | Reading two blocks of lines one after the other is reading their concatenation |
| ParseFile.RunKeepsCategories | src/com/innoveworkshop/pickle/models/Document.java:94-95 | The loop never removes or reorders a category, whether it finishes or throws |
| ParseFile.ParseLines | src/com/innoveworkshop/pickle/models/Document.java:68-136 | `parseFile` only appends to the categories the document already held, whether it finishes or throws |
| ParseFile.CommittedCategoriesSurvive | src/com/innoveworkshop/pickle/models/Document.java:78-135 | A category committed by some line stays in the document even when a later line throws |
| ParseFile.RunDesignatorFree | src/com/innoveworkshop/pickle/models/Document.java:107-122 | No step adds a component with designators to a category or to the document |
| ParseFile.ParsedComponentsHaveNoDesignators | src/com/innoveworkshop/pickle/models/Document.java:107-122 | Every component in the categories `parseFile` adds has no designators, so its quantity is 0 |
| Documents.FindCategoryFrom | src/com/innoveworkshop/pickle/models/Document.java:145-154 | The lookup stops at the first category whose name equals the key ignoring case, or at the first one without a name, and every category before it has a name that differs |
| Documents.LookupIgnoresCase | src/com/innoveworkshop/pickle/models/Document.java:148 | Two keys that differ only in case find the same category |
| Documents.Document.constructor | src/com/innoveworkshop/pickle/models/Document.java:31-33 | A document with no categories |
| Documents.Document.WithCategories | src/com/innoveworkshop/pickle/models/Document.java:40-43 | Exactly the given categories, in order |
| Documents.Document.FromLines | src/com/innoveworkshop/pickle/models/Document.java:54-57 | The constructor throws what `parseFile` throws; otherwise it returns a new document holding what `parseFile` builds from nothing |
| Documents.Document.AddCategory | src/com/innoveworkshop/pickle/models/Document.java:179-181 | One category is appended at the end, and the earlier ones keep their places and states |
| Documents.Document.CommitOpen | src/com/innoveworkshop/pickle/models/Document.java:129-131 | The open category, if any, is appended to the document |
| Documents.Document.OpenCategory | src/com/innoveworkshop/pickle/models/Document.java:93-99 | The open category is committed, and a new category named by the header line becomes the open one |
| Documents.Document.InEmpty | src/com/innoveworkshop/pickle/models/Document.java:80-106 | One pass of the loop in EMPTY does what `Step` says: it throws with the document as `Step` leaves it, or goes on with the state `Step` gives |
| Documents.Document.InComponentRefDes | src/com/innoveworkshop/pickle/models/Document.java:107-122 | One pass of the loop in COMPONENT_REFDES does what `Step` says |
| Documents.Document.CloseComponent | src/com/innoveworkshop/pickle/models/Document.java:109-116 | The open component is appended to the open category, and no component is open any more |
| Documents.Document.SetDesignators | src/com/innoveworkshop/pickle/models/Document.java:119-122 | The open component's designators become the split line, and it stays out of the category |
| Documents.Document.ParseFile | src/com/innoveworkshop/pickle/models/Document.java:68-136 | The earlier categories stay where they are. The document ends holding what `ParseLines` gives, and the exception is the one `ParseLines` gives, if any |
| Documents.Document.GetComponentsByCategoryName | src/com/innoveworkshop/pickle/models/Document.java:145-154 | Returns the components of the first category whose name equals the key ignoring case, null when none does, and a NullPointerException when a category without a name comes first. Nothing changes |
| ParseBehaviour.IgnoredLinesChangeNothing | src/com/innoveworkshop/pickle/models/Document.java:102-106 | Any number of non-empty lines that are neither descriptors nor headers leave the EMPTY stage unchanged |
| ParseBehaviour.OrphanDescriptor | src/com/innoveworkshop/pickle/models/Document.java:83-86 | A descriptor line before the first header throws OrphanComponent, whatever skipped lines come before it, and the document keeps what it held |
| ParseBehaviour.EmptyLineThrows | src/com/innoveworkshop/pickle/models/Document.java:92-106 | An empty line in EMPTY throws CharIndexOutOfBounds, and the open category never reaches the document |
| ParseBehaviour.OpenComponentDropped | src/com/innoveworkshop/pickle/models/Document.java:78-131 | A component still awaiting its designators at the end of the input is dropped; one more blank line would have added it |
| ParseBehaviour.DescriptorTestComesFirst | src/com/innoveworkshop/pickle/models/Document.java:81-92 | `[x] 1 FOO:` is both a header and a descriptor, and it opens a component named `FOO:` |
| ParseBehaviour.ValueWithoutSpaceIsName | src/com/innoveworkshop/pickle/models/Component.java:62 | `[ ] 1 X(10k)` names a component `X(10k)` with no value |
| ParseBehaviour.FieldsOnlyInOrder | src/com/innoveworkshop/pickle/models/Component.java:62 | A value written after the description is not captured: the groups are read only in the order value, description, package |
| ParseBehaviour.BadDescriptorDoesNotMatch | src/com/innoveworkshop/pickle/models/Component.java:64-65 | `[ bad descriptor` passes the guard but matches nowhere, so it throws NoMatch |
| ParseBehaviour.MalformedDescriptor | src/com/innoveworkshop/pickle/models/Document.java:89 | After a header, `[ bad descriptor` throws NoMatch, and the open category is lost |
| ParseBehaviour.ShortDescriptorMatches | src/com/innoveworkshop/pickle/models/Component.java:62 | A glyph, a one-digit quantity and a whitespace-free name, followed by nothing or by whitespace, always parse |
| ParseBehaviour.ResistorLineMatches | src/com/innoveworkshop/pickle/models/Component.java:62-84 | `[ ] 2 RC0603FR-0710KL (10k)` gives not picked, name `RC0603FR-0710KL`, value `10k`, and no description or package |
| ParseBehaviour.CapacitorLineMatches | src/com/innoveworkshop/pickle/models/Component.java:62-84 | `[X] 1 GRM188R71H104KA93D "Decoupling cap" [0603]` gives picked, the name, no value, the description `Decoupling cap` and the package `0603` |
| ParseBehaviour.BlankAfterDesignatorsThrows | src/com/innoveworkshop/pickle/models/Document.java:92-122 | A header, a descriptor, a designator line and a blank line throw at the blank line, before any category has been added |
| ParseBehaviour.ResistorsBlockThrows | src/com/innoveworkshop/pickle/models/Document.java:78-122 | The first four lines of the two-category example throw CharIndexOutOfBounds with nothing added |
| ParseBehaviour.TwoCategoryListThrows | src/com/innoveworkshop/pickle/models/Document.java:68-136 | The whole two-category example throws CharIndexOutOfBounds, and the document stays empty |
| ParseBehaviour.RunDescribedComponent | src/com/innoveworkshop/pickle/models/Document.java:81-116 | A descriptor line followed by a blank line appends one component, without designators, to the open category |
| ParseBehaviour.RunLayout | src/com/innoveworkshop/pickle/models/Document.java:81-116 | Descriptor lines, each followed by a blank line, append their components to the open category, in order |
| ParseBehaviour.RunSection | src/com/innoveworkshop/pickle/models/Document.java:92-116 | A header followed by such a block commits the category open before it and fills a new one |
| ParseBehaviour.RunSections | src/com/innoveworkshop/pickle/models/Document.java:78-127 | A file written as headers and laid-out descriptor blocks ends in EMPTY, with its categories appended after the open one |
| ParseBehaviour.ParseRender | src/com/innoveworkshop/pickle/models/Document.java:68-136 | A pick list written with a blank line after every descriptor line and no designator lines parses back to exactly its categories and components, appended to the document |

## Left out

- Reading the file: the `FileReader` and `BufferedReader`, `readLine`, and the `close()` calls in `finally` (`Document.java:54-57,69,132-135`). `parseFile` is modelled on the sequence of lines that `readLine` would return. `IOException` is not modelled.
- The general regular-expression engine. Only the one pattern at `Component.java:62` is modelled. `\s` is `[ \t\n\x0B\f\r]`, `\d` is ASCII digits, and `.` is any character except the Java line terminators.
- Exception messages, the constant error offset 0, and the exception classes. Errors are the `Basics.Error` values: NotADescriptor, NoMatch, NotAHeader, OrphanComponent, CharIndexOutOfBounds, NullPointer.
- The stages `CATEGORY` and `COMPONENT_DESCRIPTOR` of `ParseStage` (`Document.java:21-26`), which the code never enters.
- Plain getters and setters, including the ones that hand out or store live `ArrayList` references (`getComponents`, `setComponents`, `getCategories`, `setCategories`, `setReferenceDesignators`). List aliasing through them is not modelled.
- `ExampleUsage.java`: console output, a fixed file path and a static document.
- JavaText.EqualsIgnoreCase: folds only the ASCII letters, where Java's `equalsIgnoreCase` folds all of Unicode.
- Components.Component.Quantity: returns the unbounded length of the list, where `getQuantity` returns a `long`. The list can never be long enough for the difference to matter.
- Documents.Document.GetComponentsByCategoryName, Documents.Document.AddCategory, Documents.Document.ParseFile: `Valid()` assumes the document owns its categories and their components. Java's `Document(Collection)` and `addCategory` leave these objects shared with the caller, who may go on changing them. After such a change the snapshot `Value()` no longer describes the objects, and the model cannot call these methods until it does again.
- Components.ParseWritten: the text after the line is limited to nothing, or one space and then a non-whitespace character. Other whitespace before that character, such as a tab or several spaces, would also parse back unchanged, but the lemma does not state it.
- ParseBehaviour.FieldsOnlyInOrder: states the relative order for one arrangement, a value written after a description with no package. The general statement is `Components.ParseWritten`, where the text after the line is nothing, or one space and then a non-whitespace character that opens none of the groups left empty.
- Java `null` arguments: a `null` key to `getComponentsByCategoryName`, `new Category((String) null)`, and `null` elements in the collection given to `Document(Collection)` or to `addCategory`. The model's `string` and non-null `Category` types cannot express them. A category's name is absent only as the model's representation of the name-less constructor `Category()`.
- Categories.Category.WithComponents: copies the given sequence. Java's `addAll` copies the collection's elements into a new list, so later changes to the caller's collection are not seen either way.
