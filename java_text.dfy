/// The pieces of java.lang.String and java.util.regex behaviour that the parser
/// relies on: the character classes of the pattern, maximal runs of a class,
/// `String.split("\\s")`, `String.isBlank` and `String.equalsIgnoreCase`.
module JavaText {

  /// Regex `\s`: Java's `[ \t\n\x0B\f\r]`.
  predicate IsSpace(c: char) {
    c == ' ' || c == '\t' || c == '\n' || c == '\U{000B}' || c == '\U{000C}' || c == '\r'
  }

  /// Regex `\d` without UNICODE_CHARACTER_CLASS.
  predicate IsDigit(c: char) {
    '0' <= c <= '9'
  }

  /// The characters the regex `.` refuses (Java line terminators).
  predicate IsLineTerminator(c: char) {
    c == '\n' || c == '\r' || c == '\U{0085}' || c == '\U{2028}' || c == '\U{2029}'
  }

  /// `Character.isWhitespace`: Unicode space, line and paragraph separators other
  /// than the non-breaking ones, and the ASCII controls 0x09-0x0D and 0x1C-0x1F.
  predicate IsJavaWhitespace(c: char) {
    || c == ' ' || c == '\U{1680}' || ('\U{2000}' <= c <= '\U{2006}') || ('\U{2008}' <= c <= '\U{200A}')
    || c == '\U{205F}' || c == '\U{3000}' || c == '\U{2028}' || c == '\U{2029}'
    || ('\t' <= c <= '\r') || ('\U{001C}' <= c <= '\U{001F}')
  }

  predicate NoSpace(s: string) {
    forall k :: 0 <= k < |s| ==> !IsSpace(s[k])
  }

  /// `String.isBlank`: empty or only whitespace. Every `\s` character is
  /// whitespace to Java, and a blank line holds neither `[` nor `:`.
  function IsBlank(s: string): (r: bool)
    ensures s == [] ==> r
    ensures (forall k :: 0 <= k < |s| ==> IsSpace(s[k])) ==> r
    ensures r ==> forall k :: 0 <= k < |s| ==> s[k] != '[' && s[k] != ':'
  {
    forall k :: 0 <= k < |s| ==> IsJavaWhitespace(s[k])
  }

  /// End of the maximal run of characters satisfying `p` that starts at `i`:
  /// what a greedy `p+` or `p*` consumes from position `i`.
  function RunEnd(s: string, i: nat, p: char -> bool): (j: nat)
    requires i <= |s|
    ensures i <= j <= |s|
    ensures forall k :: i <= k < j ==> p(s[k])
    ensures j < |s| ==> !p(s[j])
    decreases |s| - i
  {
    if i < |s| && p(s[i]) then RunEnd(s, i + 1, p) else i
  }

  // ---------------------------------------------------------------------------
  // String.split("\\s")

  /// The whitespace characters of `s`, in order: the separators `split` cuts at.
  function Separators(s: string): seq<char> {
    if s == [] then []
    else (if IsSpace(s[0]) then [s[0]] else []) + Separators(s[1..])
  }

  /// `s` cut at every whitespace character, keeping every piece, empty or not.
  function Pieces(s: string): (r: seq<string>)
    ensures |r| == |Separators(s)| + 1
    ensures forall k :: 0 <= k < |r| ==> NoSpace(r[k])
  {
    if s == [] then [[]]
    else
      var rest := Pieces(s[1..]);
      if IsSpace(s[0]) then [[]] + rest
      else [[s[0]] + rest[0]] + rest[1..]
  }

  /// Pieces glued back together with separators between them.
  function Join(ps: seq<string>, seps: seq<char>): string
    requires |ps| == |seps| + 1
  {
    if seps == [] then ps[0] else ps[0] + [seps[0]] + Join(ps[1..], seps[1..])
  }

  /// The longest prefix of `ps` that does not end with an empty piece.
  function DropTrailingEmpty(ps: seq<string>): (r: seq<string>)
    ensures r <= ps
    ensures forall k :: |r| <= k < |ps| ==> ps[k] == []
    ensures r == [] || r[|r| - 1] != []
  {
    if ps != [] && ps[|ps| - 1] == [] then DropTrailingEmpty(ps[..|ps| - 1]) else ps
  }

  /// `String.split("\\s")` with limit 0: a string the pattern matches nowhere
  /// is returned whole (so `""` gives `[""]`); otherwise the pieces between
  /// single whitespace characters, with trailing empty pieces removed.
  /// No element holds whitespace; a line with whitespace gives all its pieces
  /// up to the last non-empty one, every trailing empty piece dropped.
  function Split(s: string): (r: seq<string>)
    ensures forall k :: 0 <= k < |r| ==> NoSpace(r[k])
    ensures NoSpace(s) ==> r == [s]
    ensures !NoSpace(s) ==> r <= Pieces(s) && (r == [] || r[|r| - 1] != [])
    ensures !NoSpace(s) ==> forall k :: |r| <= k < |Pieces(s)| ==> Pieces(s)[k] == []
  {
    if NoSpace(s) then [s] else DropTrailingEmpty(Pieces(s))
  }

  lemma {:induction false} JoinPieces(s: string)
    ensures Join(Pieces(s), Separators(s)) == s
  {
    if s != [] {
      var t := s[1..];
      JoinPieces(t);
      assert s == [s[0]] + t;
      var p, q := Pieces(t), Separators(t);
      if IsSpace(s[0]) {
        assert Separators(s) == [s[0]] + q;
        assert Pieces(s) == [[]] + p;
      } else {
        assert Separators(s) == q;
        assert Pieces(s) == [[s[0]] + p[0]] + p[1..];
        if q != [] {
          assert Join(p, q) == p[0] + [q[0]] + Join(p[1..], q[1..]);
          assert Pieces(s)[1..] == p[1..];
        }
      }
    }
  }

  lemma {:induction false} NoSpaceSeparators(s: string)
    requires NoSpace(s)
    ensures Separators(s) == []
  {
    if s != [] {
      NoSpaceSeparators(s[1..]);
    }
  }

  /// A piece that contains no whitespace sticks to the first piece of what follows it.
  lemma {:induction false} PiecesOfNoSpacePrefix(a: string, x: string)
    requires NoSpace(a)
    ensures Pieces(a + x) == [a + Pieces(x)[0]] + Pieces(x)[1..]
  {
    if a != [] {
      PiecesOfNoSpacePrefix(a[1..], x);
      assert (a + x)[1..] == a[1..] + x;
      assert a + x == [a[0]] + (a[1..] + x);
      assert [a[0]] + (a[1..] + Pieces(x)[0]) == a + Pieces(x)[0];
    } else {
      assert a + x == x;
      assert a + Pieces(x)[0] == Pieces(x)[0];
      assert Pieces(x) == [Pieces(x)[0]] + Pieces(x)[1..];
    }
  }

  /// Cutting a string whose last character is not whitespace keeps a non-empty last piece.
  lemma {:induction false} LastPieceNonEmpty(s: string)
    requires s != [] && !IsSpace(s[|s| - 1])
    ensures Pieces(s)[|Pieces(s)| - 1] != []
  {
    var t := s[1..];
    var rest := Pieces(t);
    if t == [] {
      assert rest == [[]] && !IsSpace(s[0]);
      assert Pieces(s)[|Pieces(s)| - 1] == [s[0]] + rest[0];
    } else {
      assert t[|t| - 1] == s[|s| - 1];
      LastPieceNonEmpty(t);
      if IsSpace(s[0]) {
        assert Pieces(s) == [[]] + rest;
      } else if |rest| > 1 {
        assert Pieces(s) == [[s[0]] + rest[0]] + rest[1..];
        assert Pieces(s)[|Pieces(s)| - 1] == rest[|rest| - 1];
      } else {
        assert Pieces(s) == [[s[0]] + rest[0]];
      }
    }
  }

  /// A designator line that does not end in whitespace yields one more piece
  /// than it has whitespace characters: empty pieces between doubled
  /// separators count.
  lemma SplitCount(s: string)
    requires s != [] && !IsSpace(s[|s| - 1])
    ensures |Split(s)| == |Separators(s)| + 1
  {
    if NoSpace(s) {
      NoSpaceSeparators(s);
    } else {
      LastPieceNonEmpty(s);
    }
  }

  /// Whitespace-free, non-empty tokens joined by single whitespace characters
  /// are split back into exactly those tokens.
  lemma {:induction false} PiecesOfJoin(ts: seq<string>, seps: seq<char>)
    requires |ts| == |seps| + 1
    requires forall k :: 0 <= k < |ts| ==> NoSpace(ts[k])
    requires forall k :: 0 <= k < |seps| ==> IsSpace(seps[k])
    ensures Pieces(Join(ts, seps)) == ts
  {
    if seps == [] {
      PiecesOfNoSpacePrefix(ts[0], []);
      assert ts[0] + [] == ts[0];
    } else {
      var rest := Join(ts[1..], seps[1..]);
      PiecesOfJoin(ts[1..], seps[1..]);
      PiecesOfNoSpacePrefix(ts[0], [seps[0]] + rest);
      assert ([seps[0]] + rest)[1..] == rest;
      assert ts[0] + [seps[0]] + rest == ts[0] + ([seps[0]] + rest);
      assert ts[0] + [] == ts[0];
      assert ts == [ts[0]] + ts[1..];
    }
  }

  lemma SplitJoin(ts: seq<string>, seps: seq<char>)
    requires |ts| == |seps| + 1
    requires forall k :: 0 <= k < |ts| ==> ts[k] != [] && NoSpace(ts[k])
    requires forall k :: 0 <= k < |seps| ==> IsSpace(seps[k])
    ensures Split(Join(ts, seps)) == ts
  {
    PiecesOfJoin(ts, seps);
    if seps == [] {
      assert Join(ts, seps) == ts[0];
    } else {
      var s := Join(ts, seps);
      JoinPieces(s);
      assert Separators(s) != [];
      if NoSpace(s) {
        NoSpaceSeparators(s);
      }
    }
  }

  // ---------------------------------------------------------------------------
  // String.equalsIgnoreCase, over ASCII letters

  function ToLower(c: char): char {
    if 'A' <= c <= 'Z' then (c as int - 'A' as int + 'a' as int) as char else c
  }

  predicate EqualsIgnoreCase(a: string, b: string) {
    |a| == |b| && forall k :: 0 <= k < |a| ==> ToLower(a[k]) == ToLower(b[k])
  }
}
