/// A component of a pick list: the descriptor-line grammar (the one regular
/// expression of Component.parseDescriptorLine, written out as a matcher), the
/// component record, and the mutable Component object.
module Components {
  import opened Basics
  import opened JavaText

  predicate IsNonSpace(c: char) {
    !IsSpace(c)
  }

  /// `Component.isDescriptorLine`: the very first character is `[`; no
  /// whitespace is skipped.
  function IsDescriptorLine(line: string): (r: bool)
    ensures r <==> "[" <= line
  {
    |line| > 0 && line[0] == '['
  }

  /// What one successful match of
  ///   \[(?<picked>.)\]\s+(?<quantity>\d+)\s+(?<name>[^\s]+)\s*
  ///   (\((?<value>[^\)]+)\)\s*)?("(?<description>[^"]+)"\s*)?(\[(?<case>[^\]]+)\]\s*)?
  /// captures; `nameAt` is where the name starts.
  datatype Match = Match(
    start: nat,
    glyph: char,
    nameAt: nat,
    name: string,
    value: Option<string>,
    description: Option<string>,
    package: Option<string>)

  /// An optional group's capture: absent, or non-empty and free of its closing character.
  predicate FieldOk(o: Option<string>, close: char) {
    o.None? || (o.value != [] && close !in o.value)
  }

  /// The first index at or after `i` holding `ch`, or `|s|`: where `[^ch]+` stops.
  function IndexOf(s: string, i: nat, ch: char): (j: nat)
    requires i <= |s|
    ensures i <= j <= |s|
    ensures forall k :: i <= k < j ==> s[k] != ch
    ensures j < |s| ==> s[j] == ch
    decreases |s| - i
  {
    if i < |s| && s[i] != ch then IndexOf(s, i + 1, ch) else i
  }

  /// The optional group `(open [^close]+ close \s*)?` tried at `p`: it is taken
  /// exactly when it matches there (nothing after it can fail), and then the
  /// cursor moves past the closing character and the whitespace after it.
  function Group(s: string, p: nat, open: char, close: char): (r: (Option<string>, nat))
    requires p <= |s|
    ensures p <= r.1 <= |s|
    ensures r.0.None? ==> r.1 == p
    ensures FieldOk(r.0, close)
  {
    if p < |s| && s[p] == open then
      var q := IndexOf(s, p + 1, close);
      if p + 1 < q < |s| then
        (Some(s[p + 1..q]), RunEnd(s, q + 1, IsSpace))
      else (None, p)
    else (None, p)
  }

  /// `open`, then a non-empty `v` free of `close`, then `close`, starting at
  /// `p`: the text that `(open [^close]+ close \s*)?` captures as `v` when it
  /// matches there.
  predicate Delimited(s: string, p: nat, open: char, close: char, v: string) {
    && v != [] && close !in v
    && p + |v| + 2 <= |s|
    && s[p] == open && s[p + 1..p + 1 + |v|] == v && s[p + 1 + |v|] == close
  }

  /// The optional group is taken at `p` exactly when delimited text stands
  /// there, captures that text, and moves past the closing character and the
  /// whitespace after it; otherwise it captures nothing.
  lemma GroupMatchesDelimited(s: string, p: nat, open: char, close: char)
    requires p <= |s|
    ensures forall v :: Delimited(s, p, open, close, v) <==> Group(s, p, open, close).0 == Some(v)
    ensures var r := Group(s, p, open, close);
            r.0.Some? ==> p + |r.0.value| + 2 <= |s| && r.1 == RunEnd(s, p + |r.0.value| + 2, IsSpace)
  {
    var r := Group(s, p, open, close);
    forall v | Delimited(s, p, open, close, v)
      ensures r.0 == Some(v)
    {
      var q := p + 1 + |v|;
      forall k | p + 1 <= k < q ensures s[k] != close {
        assert s[k] == s[p + 1..q][k - p - 1];
      }
      IndexOfIs(s, p + 1, close, q);
    }
    if r.0.Some? {
      var q := IndexOf(s, p + 1, close);
      assert r.0.value == s[p + 1..q] && Delimited(s, p, open, close, r.0.value);
    }
  }

  /// The mandatory part `\[.\]\s+\d+\s+[^\s]+` tried at `i`, giving where the name
  /// starts and ends. It leaves no choice to backtracking: each `\s+`, `\d+` and
  /// `[^\s]+` takes its maximal run, because the class that follows it is
  /// disjoint from it, and the name takes its maximal run because everything
  /// after it may match empty.
  function NameSpan(s: string, i: nat): (r: Option<(nat, nat)>)
    requires i <= |s|
    ensures r.Some? ==> i + 3 < r.value.0 < r.value.1 <= |s|
    ensures r.Some? ==> forall k :: r.value.0 <= k < r.value.1 ==> !IsSpace(s[k])
    ensures r.Some? ==> r.value.1 < |s| ==> IsSpace(s[r.value.1])
  {
    if i + 3 <= |s| && s[i] == '[' && !IsLineTerminator(s[i + 1]) && s[i + 2] == ']' then
      var a := RunEnd(s, i + 3, IsSpace);
      var b := RunEnd(s, a, IsDigit);
      var c := RunEnd(s, b, IsSpace);
      var d := RunEnd(s, c, IsNonSpace);
      if i + 3 < a < b < c < d then Some((c, d)) else None
    else None
  }

  /// The three optional groups after the name, each preceded by the whitespace
  /// the pattern lets through.
  function Optionals(s: string, d: nat): (r: (Option<string>, Option<string>, Option<string>))
    requires d <= |s|
    ensures FieldOk(r.0, ')') && FieldOk(r.1, '"') && FieldOk(r.2, ']')
  {
    var value := Group(s, RunEnd(s, d, IsSpace), '(', ')');
    var description := Group(s, value.1, '"', '"');
    var package := Group(s, description.1, '[', ']');
    (value.0, description.0, package.0)
  }

  /// The whole pattern tried at start position `i`.
  function MatchAt(s: string, i: nat): (r: Option<Match>)
    requires i <= |s|
    ensures r.Some? ==> r.value.start == i && i + 3 <= |s| && s[i] == '[' && s[i + 2] == ']'
                        && r.value.glyph == s[i + 1] && !IsLineTerminator(r.value.glyph)
    ensures r.Some? ==> r.value.name != [] && NoSpace(r.value.name)
    ensures r.Some? ==> FieldOk(r.value.value, ')') && FieldOk(r.value.description, '"')
                        && FieldOk(r.value.package, ']')
  {
    var span := NameSpan(s, i);
    if span.None? then None
    else
      var optionals := Optionals(s, span.value.1);
      Some(Match(i, s[i + 1], span.value.0, s[span.value.0..span.value.1], optionals.0, optionals.1, optionals.2))
  }

  /// `Matcher.find()` from position `i`: the leftmost start at which the
  /// pattern matches (see `FindFromLeftmost`).
  function FindFrom(s: string, i: nat): (r: Option<nat>)
    requires i <= |s|
    ensures r.Some? ==> i <= r.value <= |s|
    decreases |s| - i
  {
    if MatchAt(s, i).Some? then Some(i)
    else if i == |s| then None
    else FindFrom(s, i + 1)
  }

  /// The position `FindFrom` returns is a match, and no position before it
  /// is; when it returns none, no position from `i` on is.
  lemma {:induction false} FindFromLeftmost(s: string, i: nat)
    requires i <= |s|
    ensures FindFrom(s, i).Some? ==> MatchAt(s, FindFrom(s, i).value).Some?
    ensures FindFrom(s, i).Some? ==> forall j: nat :: i <= j < FindFrom(s, i).value ==> MatchAt(s, j).None?
    ensures FindFrom(s, i).None? ==> forall j: nat :: i <= j <= |s| ==> MatchAt(s, j).None?
    decreases |s| - i
  {
    if MatchAt(s, i).Some? {
      assert FindFrom(s, i) == Some(i);
    } else if i == |s| {
      assert FindFrom(s, i).None?;
    } else {
      var r := FindFrom(s, i + 1);
      assert FindFrom(s, i) == r;
      FindFromLeftmost(s, i + 1);
      if r.Some? {
        forall j: nat | i <= j < r.value ensures MatchAt(s, j).None? {
          if j > i {
            assert i + 1 <= j < r.value;
          }
        }
      } else {
        forall j: nat | i <= j <= |s| ensures MatchAt(s, j).None? {
          if j > i {
            assert i + 1 <= j <= |s|;
          }
        }
      }
    }
  }

  /// The groups of the leftmost match, if there is one.
  function Find(s: string): (r: Option<Match>)
    ensures r.Some? ==> FindFrom(s, 0) == Some(r.value.start)
  {
    var start := FindFrom(s, 0);
    if start.None? then None else MatchAt(s, start.value)
  }

  /// `find()` reports the leftmost match: its groups are those of the match at
  /// the start it returns, no start before that one matches, and when it
  /// reports none, no start matches at all.
  lemma FindLeftmost(s: string)
    ensures Find(s).Some? ==> Find(s).value.start <= |s| && MatchAt(s, Find(s).value.start) == Find(s)
    ensures Find(s).Some? ==> forall j: nat :: j < Find(s).value.start ==> MatchAt(s, j).None?
    ensures Find(s).None? ==> forall j: nat :: j <= |s| ==> MatchAt(s, j).None?
  {
    FindFromLeftmost(s, 0);
  }

  /// The fields `parseDescriptorLine` assigns.
  datatype Descriptor = Descriptor(
    picked: bool,
    name: string,
    value: Option<string>,
    description: Option<string>,
    package: Option<string>)

  /// What a successful parse can produce.
  predicate WellFormed(d: Descriptor) {
    && d.name != [] && NoSpace(d.name)
    && FieldOk(d.value, ')') && FieldOk(d.description, '"') && FieldOk(d.package, ']')
  }

  /// `Component.parseDescriptorLine` on the fields it assigns: the guard, the
  /// unanchored search, and `picked` as "the glyph is not a space".
  function ParseDescriptor(line: string): (r: Result<Descriptor>)
    ensures r == Err(NotADescriptor) <==> !IsDescriptorLine(line)
    ensures r == Err(NoMatch) <==> IsDescriptorLine(line) && Find(line).None?
    ensures r.Err? ==> r == Err(NotADescriptor) || r == Err(NoMatch)
    ensures r.Ok? ==> WellFormed(r.value)
    ensures r.Ok? ==> Find(line).Some? && r.value.picked == (Find(line).value.glyph != ' ')
  {
    if !IsDescriptorLine(line) then Err(NotADescriptor)
    else
      match Find(line)
      case None => Err(NoMatch)
      case Some(m) => Ok(Descriptor(m.glyph != ' ', m.name, m.value, m.description, m.package))
  }

  /// `parseDescriptorLine` throws for want of a match exactly when the line
  /// passes the guard and the pattern matches at no start position.
  lemma NoMatchMeansNowhere(line: string)
    ensures ParseDescriptor(line) == Err(NoMatch)
            <==> IsDescriptorLine(line) && forall j: nat :: j <= |line| ==> MatchAt(line, j).None?
  {
    FindFromLeftmost(line, 0);
  }

  // ---------------------------------------------------------------------------
  // The mandatory part of the pattern, declaratively, and why the matcher's
  // choices are the regex engine's.

  /// `\[.\]\s+\d+\s+[^\s]+` matches `s[i..d]` with the digits at `[a, b)` and the name at `[c, d)`.
  ghost predicate MandatoryAt(s: string, i: nat, a: nat, b: nat, c: nat, d: nat) {
    && i + 3 < a < b < c < d <= |s|
    && s[i] == '[' && !IsLineTerminator(s[i + 1]) && s[i + 2] == ']'
    && (forall k :: i + 3 <= k < a ==> IsSpace(s[k]))
    && (forall k :: a <= k < b ==> IsDigit(s[k]))
    && (forall k :: b <= k < c ==> IsSpace(s[k]))
    && (forall k :: c <= k < d ==> !IsSpace(s[k]))
  }

  /// Every way the mandatory part can match at `i` is found by `MatchAt`, with
  /// the same name start and a name at least as long: the greedy choice.
  lemma GreedyName(s: string, i: nat, a: nat, b: nat, c: nat, d: nat)
    requires MandatoryAt(s, i, a, b, c, d)
    ensures MatchAt(s, i).Some?
    ensures MatchAt(s, i).value.nameAt == c && d <= c + |MatchAt(s, i).value.name|
  {
    assert IsDigit(s[a]) && IsSpace(s[b]) && !IsSpace(s[c]);
    RunEndIs(s, i + 3, IsSpace, a);
    RunEndIs(s, a, IsDigit, b);
    RunEndIs(s, b, IsSpace, c);
    var d' := RunEnd(s, c, IsNonSpace);
    assert NameSpan(s, i) == Some((c, d'));
  }

  /// Whatever `MatchAt` finds is a match of the mandatory part, and the name
  /// it captures is that match's `[^\s]+` text: the characters of the line
  /// from `nameAt`, ending at whitespace or at the end of the line.
  lemma MatchIsMandatory(s: string, i: nat)
    requires i <= |s| && MatchAt(s, i).Some?
    ensures var m := MatchAt(s, i).value;
            && m.nameAt + |m.name| <= |s|
            && s[m.nameAt..m.nameAt + |m.name|] == m.name
            && (m.nameAt + |m.name| < |s| ==> IsSpace(s[m.nameAt + |m.name|]))
    ensures exists a: nat, b: nat, c: nat, d: nat :: MandatoryAt(s, i, a, b, c, d)
              && c == MatchAt(s, i).value.nameAt && d == c + |MatchAt(s, i).value.name|
  {
    var a := RunEnd(s, i + 3, IsSpace);
    var b := RunEnd(s, a, IsDigit);
    var c := RunEnd(s, b, IsSpace);
    var d := RunEnd(s, c, IsNonSpace);
    assert NameSpan(s, i) == Some((c, d));
    var m := MatchAt(s, i).value;
    assert m.nameAt == c && m.name == s[c..d];
    assert forall k :: c <= k < d ==> IsNonSpace(s[k]);
    assert MandatoryAt(s, i, a, b, c, d);
  }

  /// The descriptor `d` is read off `s` at the match `m`: `picked` from the
  /// glyph after the `[` at `m.start`, the name as the line's own text at
  /// `m.nameAt`, ending at whitespace or at the end of the line, and the
  /// optional fields as the groups read after that name.
  predicate ReadAt(s: string, m: Match, d: Descriptor) {
    && m.start + 3 <= |s| && s[m.start] == '[' && d.picked == (s[m.start + 1] != ' ')
    && m.nameAt + |d.name| <= |s|
    && s[m.nameAt..m.nameAt + |d.name|] == d.name
    && (m.nameAt + |d.name| < |s| ==> IsSpace(s[m.nameAt + |d.name|]))
    && var o := Optionals(s, m.nameAt + |d.name|);
       d.value == o.0 && d.description == o.1 && d.package == o.2
  }

  /// Every field `parseDescriptorLine` assigns is read off the line at the
  /// leftmost match.
  lemma ParsedFieldsReadLine(line: string)
    requires ParseDescriptor(line).Ok?
    ensures Find(line).Some? && ReadAt(line, Find(line).value, ParseDescriptor(line).value)
  {
    ParsedIsFound(line);
    FindLeftmost(line);
    MatchFields(line, Find(line).value, ParseDescriptor(line).value);
  }

  lemma ParsedIsFound(line: string)
    requires ParseDescriptor(line).Ok?
    ensures Find(line).Some?
    ensures var m := Find(line).value;
            ParseDescriptor(line).value == Descriptor(m.glyph != ' ', m.name, m.value, m.description, m.package)
  {
  }

  /// The descriptor built from a match's groups is read off the line there.
  lemma MatchFields(s: string, m: Match, d: Descriptor)
    requires m.start <= |s| && MatchAt(s, m.start) == Some(m)
    requires d == Descriptor(m.glyph != ' ', m.name, m.value, m.description, m.package)
    ensures ReadAt(s, m, d)
  {
    var span := NameSpan(s, m.start).value;
    var o := Optionals(s, span.1);
    assert m == Match(m.start, s[m.start + 1], span.0, s[span.0..span.1], o.0, o.1, o.2);
    assert m.nameAt + |d.name| == span.1;
  }

  // ---------------------------------------------------------------------------
  // Writing a descriptor back in canonical form, and reading it again.

  /// An optional field as written after the name: a space, then the delimited text.
  function Field(open: char, o: Option<string>, close: char): string {
    match o
    case None => []
    case Some(v) => [' ', open] + v + [close]
  }

  /// The fields after the name, in slot order.
  function Tail(d: Descriptor): string {
    Field('(', d.value, ')') + Field('"', d.description, '"') + Field('[', d.package, ']')
  }

  /// A descriptor line with the given glyph and one-digit quantity hint, then
  /// the name and the fields in slot order: value, description, package.
  function Written(glyph: char, q: char, d: Descriptor): string {
    ['[', glyph, ']', ' ', q, ' '] + d.name + Tail(d)
  }

  /// The canonical line of a descriptor: glyph `x` or space, quantity hint `1`.
  function Serialize(d: Descriptor): string {
    Written(if d.picked then 'x' else ' ', '1', d)
  }

  function Drop1(t: string): string {
    if t == [] then [] else t[1..]
  }

  lemma {:induction false} RunEndIs(s: string, i: nat, p: char -> bool, j: nat)
    requires i <= j <= |s|
    requires forall k :: i <= k < j ==> p(s[k])
    requires j < |s| ==> !p(s[j])
    ensures RunEnd(s, i, p) == j
    decreases j - i
  {
    if i < j {
      RunEndIs(s, i + 1, p, j);
    }
  }

  lemma {:induction false} IndexOfIs(s: string, i: nat, ch: char, j: nat)
    requires i <= j <= |s|
    requires forall k :: i <= k < j ==> s[k] != ch
    requires j < |s| ==> s[j] == ch
    ensures IndexOf(s, i, ch) == j
    decreases j - i
  {
    if i < j {
      IndexOfIs(s, i + 1, ch, j);
    }
  }

  /// How the text after a field begins: nothing, or a space and then a
  /// character that is not whitespace.
  predicate Spaced(t: string) {
    t == [] || (|t| >= 2 && t[0] == ' ' && !IsSpace(t[1]))
  }

  /// As `Spaced`, and the character after the space does not open the group
  /// `open`, so that group finds nothing there.
  predicate Next(t: string, open: char) {
    Spaced(t) && (t == [] || t[1] != open)
  }

  /// Text that may follow a canonical line without being read as one of its
  /// absent fields: every group the line leaves out is, in order, not opened
  /// by the text.
  predicate Trailer(d: Descriptor, rest: string) {
    && Spaced(rest)
    && (d.package.None? ==>
          && Next(rest, '[')
          && (d.description.None? ==>
                && Next(rest, '"')
                && (d.value.None? ==> Next(rest, '('))))
  }

  /// A separator written as one space is what `\s*` consumes.
  lemma SkipSeparator(s: string, p: nat, t: string)
    requires p <= |s| && s[p..] == t && Spaced(t)
    ensures |Drop1(t)| <= |s|
    ensures RunEnd(s, p, IsSpace) == |s| - |Drop1(t)|
    ensures s[|s| - |Drop1(t)|..] == Drop1(t)
  {
    if t == [] {
      RunEndIs(s, p, IsSpace, p);
    } else {
      assert s[p] == t[0] && s[p + 1] == t[1];
      RunEndIs(s, p, IsSpace, p + 1);
      assert s[p + 1..] == t[1..];
    }
  }

  /// One optional group read back: at `p` the line continues with the group's
  /// delimited text (if present) and then the text `t` after it.
  lemma GroupReadsField(s: string, p: nat, open: char, close: char, o: Option<string>, t: string)
    requires p <= |s| && s[p..] == Drop1(Field(open, o, close) + t)
    requires FieldOk(o, close) && Spaced(t) && (o.None? ==> Next(t, open))
    ensures |Drop1(t)| <= |s|
    ensures Group(s, p, open, close).0 == o && Group(s, p, open, close).1 == |s| - |Drop1(t)|
    ensures s[|s| - |Drop1(t)|..] == Drop1(t)
  {
    match o
    case None =>
      assert Field(open, o, close) + t == t;
      if t != [] {
        assert s[p] == s[p..][0] == t[1];
      }
    case Some(v) =>
      assert Drop1(Field(open, o, close) + t) == [open] + v + [close] + t;
      GroupReadsPresent(s, p, open, close, v, t);
  }

  lemma GroupReadsPresent(s: string, p: nat, open: char, close: char, v: string, t: string)
    requires p <= |s| && s[p..] == [open] + v + [close] + t
    requires v != [] && close !in v && Spaced(t)
    ensures |Drop1(t)| <= |s|
    ensures Group(s, p, open, close).0 == Some(v) && Group(s, p, open, close).1 == |s| - |Drop1(t)|
    ensures s[|s| - |Drop1(t)|..] == Drop1(t)
  {
    var q := p + 1 + |v|;
    assert s[p] == open && q < |s| && s[p + 1..q] == v && s[q] == close && s[q + 1..] == t by {
      assert s[p..][0] == open;
      assert s[p..][1..1 + |v|] == v;
      assert s[p..][1 + |v|] == close;
      assert s[p..][2 + |v|..] == t;
    }
    assert IndexOf(s, p + 1, close) == q by {
      forall k | p + 1 <= k < q ensures s[k] != close {
        assert s[k] == s[p + 1..q][k - p - 1];
      }
      IndexOfIs(s, p + 1, close, q);
    }
    GroupTaken(s, p, open, close, q);
    SkipSeparator(s, q + 1, t);
  }

  /// The group is taken when its closing character comes after at least one other.
  lemma GroupTaken(s: string, p: nat, open: char, close: char, q: nat)
    requires p < q < |s| && s[p] == open && IndexOf(s, p + 1, close) == q && p + 1 < q
    ensures Group(s, p, open, close).0 == Some(s[p + 1..q])
    ensures Group(s, p, open, close).1 == RunEnd(s, q + 1, IsSpace)
  {
  }

  /// The mandatory part of a canonical line: the name sits at `[6, n)`.
  lemma SerializedNameSpan(s: string, n: nat)
    requires 6 < n <= |s|
    requires s[0] == '[' && !IsLineTerminator(s[1]) && s[2] == ']'
    requires s[3] == ' ' && IsDigit(s[4]) && s[5] == ' '
    requires NoSpace(s[6..n]) && (n < |s| ==> s[n] == ' ')
    ensures NameSpan(s, 0) == Some((6, n))
  {
    assert forall k :: 6 <= k < n ==> IsNonSpace(s[k]) by {
      forall k | 6 <= k < n ensures IsNonSpace(s[k]) {
        assert s[k] == s[6..n][k - 6];
      }
    }
    RunEndIs(s, 3, IsSpace, 4);
    RunEndIs(s, 4, IsDigit, 5);
    RunEndIs(s, 5, IsSpace, 6);
    RunEndIs(s, 6, IsNonSpace, n);
  }

  /// A line cut into three pieces.
  lemma Pieces3(s: string, a: string, b: string, c: string)
    requires s == a + b + c
    ensures |s| == |a| + |b| + |c|
    ensures s[..|a|] == a && s[|a|..|a| + |b|] == b && s[|a| + |b|..] == c
  {
  }

  /// The fixed head of a canonical line, character by character.
  lemma HeadChars(s: string, glyph: char, q: char)
    requires |s| >= 6 && s[..6] == ['[', glyph, ']', ' ', q, ' ']
    ensures s[0] == '[' && s[1] == glyph && s[2] == ']' && s[3] == ' ' && s[4] == q && s[5] == ' '
  {
    assert s[1] == s[..6][1];
  }

  /// The text after each field of the canonical tail, followed by a trailer,
  /// starts as the next group needs.
  lemma TailShape(d: Descriptor, rest: string)
    requires Trailer(d, rest)
    ensures Tail(d) + rest == Field('(', d.value, ')') + (Field('"', d.description, '"') + (Field('[', d.package, ']') + rest))
    ensures Spaced(Tail(d) + rest)
    ensures var t2 := Field('"', d.description, '"') + (Field('[', d.package, ']') + rest);
            Spaced(t2) && (d.value.None? ==> Next(t2, '('))
    ensures var t3 := Field('[', d.package, ']') + rest;
            Spaced(t3) && (d.description.None? ==> Next(t3, '"'))
  {
    var t3 := Field('[', d.package, ']') + rest;
    var t2 := Field('"', d.description, '"') + t3;
    AfterPackage(d, rest);
    AfterDescription(d, t3);
    TailAssoc(d, rest);
    FieldSpaced('(', d.value, ')', t2);
  }

  lemma TailAssoc(d: Descriptor, rest: string)
    ensures Tail(d) + rest == Field('(', d.value, ')') + (Field('"', d.description, '"') + (Field('[', d.package, ']') + rest))
  {
  }

  /// The text after the package slot.
  lemma AfterPackage(d: Descriptor, rest: string)
    requires Trailer(d, rest)
    ensures var t3 := Field('[', d.package, ']') + rest;
            && Spaced(t3)
            && (d.description.None? ==> Next(t3, '"'))
            && (d.description.None? && d.value.None? ==> Next(t3, '('))
  {
    FieldSpaced('[', d.package, ']', rest);
    if d.description.None? {
      FieldNext('[', d.package, ']', rest, '"');
      if d.value.None? {
        FieldNext('[', d.package, ']', rest, '(');
      }
    }
  }

  /// The text after the description slot.
  lemma AfterDescription(d: Descriptor, t3: string)
    requires Spaced(t3)
    requires d.description.None? ==> Next(t3, '"') && (d.value.None? ==> Next(t3, '('))
    ensures var t2 := Field('"', d.description, '"') + t3;
            Spaced(t2) && (d.value.None? ==> Next(t2, '('))
  {
    FieldSpaced('"', d.description, '"', t3);
    if d.value.None? {
      FieldNext('"', d.description, '"', t3, '(');
    }
  }

  /// A field written after the name keeps the text after it `Spaced`.
  lemma FieldSpaced(open: char, o: Option<string>, close: char, t: string)
    requires !IsSpace(open) && Spaced(t)
    ensures Spaced(Field(open, o, close) + t)
    ensures o.None? ==> Field(open, o, close) + t == t
  {
    if o.None? {
      assert Field(open, o, close) == [];
    } else {
      assert (Field(open, o, close) + t)[..2] == [' ', open];
    }
  }

  /// A field, or the text after it when the field is absent, does not open
  /// the group `n`.
  lemma FieldNext(open: char, o: Option<string>, close: char, t: string, n: char)
    requires !IsSpace(open) && n != open && Spaced(t) && (o.None? ==> Next(t, n))
    ensures Next(Field(open, o, close) + t, n)
  {
    FieldSpaced(open, o, close, t);
    if o.Some? {
      assert (Field(open, o, close) + t)[1] == open;
    }
  }

  /// The canonical tail of fields, and a trailer after it, read back by the
  /// optional groups.
  lemma SerializedOptionals(s: string, n: nat, d: Descriptor, rest: string)
    requires WellFormed(d) && Trailer(d, rest)
    requires n <= |s|
    requires s[n..] == Tail(d) + rest
    ensures Optionals(s, n) == (d.value, d.description, d.package)
  {
    var t3 := Field('[', d.package, ']') + rest;
    var t2 := Field('"', d.description, '"') + t3;
    TailShape(d, rest);
    ReadOptionals(s, n, d.value, d.description, d.package, t2, t3, rest);
  }

  /// Three fields, each followed by text that starts as the next group needs,
  /// are read back in order by the optional groups.
  lemma ReadOptionals(s: string, n: nat, value: Option<string>, description: Option<string>,
                      package: Option<string>, t2: string, t3: string, rest: string)
    requires n <= |s| && s[n..] == Field('(', value, ')') + t2
    requires t2 == Field('"', description, '"') + t3 && t3 == Field('[', package, ']') + rest
    requires FieldOk(value, ')') && FieldOk(description, '"') && FieldOk(package, ']')
    requires Spaced(s[n..])
    requires Spaced(t2) && (value.None? ==> Next(t2, '('))
    requires Spaced(t3) && (description.None? ==> Next(t3, '"'))
    requires Spaced(rest) && (package.None? ==> Next(rest, '['))
    ensures Optionals(s, n) == (value, description, package)
  {
    var e: nat := |s| - |Drop1(s[n..])|;
    SkipSeparator(s, n, s[n..]);
    ReadValue(s, e, value, description, package, t2, t3, rest);
    var f := Group(s, e, '(', ')').1;
    OptionalsAre(s, n, e, f, Group(s, f, '"', '"').1);
  }

  /// The value group and the two after it.
  lemma ReadValue(s: string, e: nat, value: Option<string>, description: Option<string>,
                  package: Option<string>, t2: string, t3: string, rest: string)
    requires e <= |s| && s[e..] == Drop1(Field('(', value, ')') + t2)
    requires t2 == Field('"', description, '"') + t3 && t3 == Field('[', package, ']') + rest
    requires FieldOk(value, ')') && FieldOk(description, '"') && FieldOk(package, ']')
    requires Spaced(t2) && (value.None? ==> Next(t2, '('))
    requires Spaced(t3) && (description.None? ==> Next(t3, '"'))
    requires Spaced(rest) && (package.None? ==> Next(rest, '['))
    ensures var f := Group(s, e, '(', ')').1;
            && Group(s, e, '(', ')').0 == value
            && Group(s, f, '"', '"').0 == description
            && Group(s, Group(s, f, '"', '"').1, '[', ']').0 == package
  {
    GroupReadsField(s, e, '(', ')', value, t2);
    ReadDescription(s, |s| - |Drop1(t2)|, description, package, t3, rest);
  }

  /// The description group and the package group after it.
  lemma ReadDescription(s: string, f: nat, description: Option<string>, package: Option<string>,
                        t3: string, rest: string)
    requires f <= |s| && s[f..] == Drop1(Field('"', description, '"') + t3)
    requires t3 == Field('[', package, ']') + rest
    requires FieldOk(description, '"') && FieldOk(package, ']')
    requires Spaced(t3) && (description.None? ==> Next(t3, '"'))
    requires Spaced(rest) && (package.None? ==> Next(rest, '['))
    ensures Group(s, f, '"', '"').0 == description
    ensures Group(s, Group(s, f, '"', '"').1, '[', ']').0 == package
  {
    GroupReadsField(s, f, '"', '"', description, t3);
    GroupReadsField(s, |s| - |Drop1(t3)|, '[', ']', package, rest);
  }

  lemma OptionalsAre(s: string, n: nat, e: nat, f: nat, g: nat)
    requires n <= e <= |s| && f <= |s| && g <= |s|
    requires RunEnd(s, n, IsSpace) == e && Group(s, e, '(', ')').1 == f && Group(s, f, '"', '"').1 == g
    ensures Optionals(s, n) == (Group(s, e, '(', ')').0, Group(s, f, '"', '"').0, Group(s, g, '[', ']').0)
  {
  }

  /// A written line, with a trailer after it, matches at its first
  /// character, capturing the glyph and the descriptor's fields.
  lemma WrittenMatch(glyph: char, q: char, d: Descriptor, rest: string)
    requires !IsLineTerminator(glyph) && IsDigit(q)
    requires WellFormed(d) && Trailer(d, rest)
    ensures MatchAt(Written(glyph, q, d) + rest, 0)
         == Some(Match(0, glyph, 6, d.name, d.value, d.description, d.package))
  {
    var head := ['[', glyph, ']', ' ', q, ' '];
    var s := Written(glyph, q, d) + rest;
    var t := Tail(d) + rest;
    var n := 6 + |d.name|;
    assert s == head + d.name + t;
    Pieces3(s, head, d.name, t);
    HeadChars(s, glyph, q);
    TailShape(d, rest);
    assert n < |s| ==> s[n] == ' ' by {
      if n < |s| {
        assert s[n] == s[n..][0];
      }
    }
    SerializedNameSpan(s, n);
    SerializedOptionals(s, n, d, rest);
    MatchAtIs(s, 0, 6, n, glyph, d.name, d.value, d.description, d.package);
  }

  /// `MatchAt` assembled from the name span and the optional groups.
  lemma MatchAtIs(s: string, i: nat, a: nat, b: nat, glyph: char, name: string,
                  value: Option<string>, description: Option<string>, package: Option<string>)
    requires i + 1 < |s| && a <= b <= |s| && NameSpan(s, i) == Some((a, b))
    requires s[i + 1] == glyph && s[a..b] == name
    requires Optionals(s, b) == (value, description, package)
    ensures MatchAt(s, i) == Some(Match(i, glyph, a, name, value, description, package))
  {
  }

  /// A well-formed descriptor written with any glyph that agrees with its
  /// `picked` flag and any one-digit quantity hint parses back to itself,
  /// followed by any text `Trailer` admits: the optional groups are tried once each, in
  /// the order value, description, package, so text that does not open the
  /// next one is never read.
  lemma ParseWritten(glyph: char, q: char, d: Descriptor, rest: string)
    requires !IsLineTerminator(glyph) && IsDigit(q) && d.picked == (glyph != ' ')
    requires WellFormed(d) && Trailer(d, rest)
    ensures ParseDescriptor(Written(glyph, q, d) + rest) == Ok(d)
  {
    WrittenMatch(glyph, q, d, rest);
    var s := Written(glyph, q, d) + rest;
    assert IsDescriptorLine(s) by {
      assert s[0] == '[';
    }
    assert Find(s) == MatchAt(s, 0);
  }

  /// Serializing a well-formed descriptor and parsing the line gives it back.
  lemma ParseSerialize(d: Descriptor)
    requires WellFormed(d)
    ensures ParseDescriptor(Serialize(d)) == Ok(d)
  {
    ParseWritten(if d.picked then 'x' else ' ', '1', d, []);
    assert Serialize(d) + [] == Serialize(d);
  }

  // ---------------------------------------------------------------------------
  // The component record and object

  /// A component's state; `package` is the field the source calls `caseStyle`.
  datatype ComponentRec = ComponentRec(
    picked: bool,
    name: string,
    value: Option<string>,
    description: Option<string>,
    package: Option<string>,
    refDes: seq<string>)

  /// The state of `new Component()`.
  const Blank := ComponentRec(false, "", None, None, None, [])

  /// `c` after a successful `parseDescriptorLine`: the five descriptor fields
  /// overwritten (absent groups become null), the designators kept.
  function Describe(c: ComponentRec, d: Descriptor): ComponentRec {
    c.(picked := d.picked, name := d.name, value := d.value, description := d.description, package := d.package)
  }

  class Component {
    var picked: bool
    var name: string
    var value: Option<string>
    var description: Option<string>
    var caseStyle: Option<string>
    var refDes: seq<string>

    function Value(): ComponentRec
      reads this
    {
      ComponentRec(picked, name, value, description, caseStyle, refDes)
    }

    /// `getQuantity`: the number of reference designators.
    function Quantity(): (n: nat)
      reads this
      ensures n == |Value().refDes|
    {
      |refDes|
    }

    constructor ()
      ensures Value() == Blank && Quantity() == 0
    {
      picked, name := false, "";
      value, description, caseStyle := None, None, None;
      refDes := [];
    }

    /// `Component(String descLine)`: a blank component populated from a
    /// descriptor line; the exception leaves no object behind.
    static method FromDescriptorLine(line: string) returns (r: Result<Component>)
      ensures ParseDescriptor(line).Err? ==> r == Err(ParseDescriptor(line).error)
      ensures ParseDescriptor(line).Ok? ==>
                r.Ok? && fresh(r.value) && r.value.Value() == Describe(Blank, ParseDescriptor(line).value)
    {
      var c := new Component();
      var err := c.ParseDescriptorLine(line);
      if err.Some? {
        r := Err(err.value);
      } else {
        r := Ok(c);
      }
    }

    /// `parseDescriptorLine`: on failure nothing changes; on success the five
    /// descriptor fields are overwritten and the designators are kept.
    method ParseDescriptorLine(line: string) returns (err: Option<Error>)
      modifies this
      ensures ParseDescriptor(line).Err? ==> err == Some(ParseDescriptor(line).error) && Value() == old(Value())
      ensures ParseDescriptor(line).Ok? ==> err == None && Value() == Describe(old(Value()), ParseDescriptor(line).value)
    {
      var parsed := ParseDescriptor(line);
      if parsed.Err? {
        return Some(parsed.error);
      }
      picked := parsed.value.picked;
      name := parsed.value.name;
      value := parsed.value.value;
      description := parsed.value.description;
      caseStyle := parsed.value.package;
      err := None;
    }

    /// `parseRefDesLine`: the designator list is cleared and refilled with the
    /// pieces of `line.split("\\s")`, in order; nothing else changes.
    method ParseRefDesLine(line: string)
      modifies this
      ensures refDes == Split(line) && Quantity() == |Split(line)|
      ensures Value() == old(Value()).(refDes := Split(line))
    {
      var des := Split(line);
      refDes := [];
      for i := 0 to |des|
        invariant refDes == des[..i]
        invariant picked == old(picked) && name == old(name) && value == old(value)
        invariant description == old(description) && caseStyle == old(caseStyle)
      {
        refDes := refDes + [des[i]];
      }
    }

    /// `addReferenceDesignator`: one designator appended at the end.
    method AddReferenceDesignator(ref: string)
      modifies this
      ensures refDes == old(refDes) + [ref] && Quantity() == old(Quantity()) + 1
      ensures Value() == old(Value()).(refDes := old(refDes) + [ref])
    {
      refDes := refDes + [ref];
    }
  }
}
