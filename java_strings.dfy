/**
 * The parts of java.lang.String and java.util.regex that the document
 * service relies on, stated over Dafny strings (sequences of characters).
 *
 * Only the regular expressions the core actually applies with `split`,
 * `replaceAll` or `matches` are given a meaning here, each one by a small
 * recursive definition; the patterns the core only ever uses with
 * `Matcher.find` stay abstract (see the ContentUtils module).
 */
module JavaStrings {

  // ---------------------------------------------------------------------
  // Character classes
  // ---------------------------------------------------------------------

  /** Characters removed by String.trim(): every code point up to U+0020. */
  predicate IsTrimmable(c: char) { c <= ' ' }

  /** The regex class \s (java.util.regex without UNICODE_CHARACTER_CLASS). */
  predicate IsRegexSpace(c: char) {
    c == ' ' || c == '\t' || c == '\n' || c == '\U{000B}' || c == '\U{000C}' || c == '\r'
  }

  /** Line terminators: the characters the regex '.' does not match. */
  predicate IsLineTerminator(c: char) {
    c == '\n' || c == '\r' || c == '\U{0085}' || c == '\U{2028}' || c == '\U{2029}'
  }

  /** Character.isWhitespace, the test behind String.isBlank(). */
  predicate IsJavaWhitespace(c: char) {
    c == '\t' || c == '\n' || c == '\U{000B}' || c == '\U{000C}' || c == '\r'
    || ('\U{001C}' <= c <= '\U{001F}') || c == ' ' || c == '\U{1680}'
    || ('\U{2000}' <= c <= '\U{2006}') || ('\U{2008}' <= c <= '\U{200A}')
    || c == '\U{2028}' || c == '\U{2029}' || c == '\U{205F}' || c == '\U{3000}'
  }

  /** The regex class \p{Cntrl}: U+0000..U+001F and U+007F. */
  predicate IsControl(c: char) { c <= '\U{001F}' || c == '\U{007F}' }

  predicate IsDigit(c: char) { '0' <= c <= '9' }
  predicate IsUpper(c: char) { 'A' <= c <= 'Z' }
  predicate IsLower(c: char) { 'a' <= c <= 'z' }
  predicate IsLetter(c: char) { IsUpper(c) || IsLower(c) }

  /** The regex class \w: [a-zA-Z_0-9]. */
  predicate IsWordChar(c: char) { IsLetter(c) || IsDigit(c) || c == '_' }

  /** Classes whose maximal runs act as split or replace delimiters. */
  datatype CharClass = LineBreak | Space | NonWord | Digit | DigitOrDot | Newline

  predicate InClass(cls: CharClass, c: char) {
    match cls
    case LineBreak => c == '\r' || c == '\n'
    case Space => IsRegexSpace(c)
    case NonWord => !IsWordChar(c)
    case Digit => IsDigit(c)
    case DigitOrDot => IsDigit(c) || c == '.'
    case Newline => c == '\n'
  }

  /** The end of the run of `cls` characters that starts at position i. */
  function RunEnd(s: string, cls: CharClass, i: nat): (j: nat)
    requires i <= |s|
    ensures i <= j <= |s|
    ensures forall k :: i <= k < j ==> InClass(cls, s[k])
    ensures j < |s| ==> !InClass(cls, s[j])
    decreases |s| - i
  {
    if i < |s| && InClass(cls, s[i]) then RunEnd(s, cls, i + 1) else i
  }

  predicate NoLineTerminator(s: string) {
    forall k :: 0 <= k < |s| ==> !IsLineTerminator(s[k])
  }

  // ---------------------------------------------------------------------
  // Simple String methods
  // ---------------------------------------------------------------------

  predicate StartsWith(s: string, p: string) { |p| <= |s| && s[..|p|] == p }

  predicate EndsWith(s: string, p: string) { |p| <= |s| && s[|s| - |p|..] == p }

  /** String.contains: t occurs in s at some position. */
  predicate Contains(s: string, t: string)
    decreases |s|
  {
    StartsWith(s, t) || (|s| > 0 && Contains(s[1..], t))
  }

  lemma {:induction false} ContainsAt(s: string, t: string, i: nat)
    requires i + |t| <= |s| && s[i..i + |t|] == t
    ensures Contains(s, t)
    decreases i
  {
    if i == 0 {
      assert s[..|t|] == t;
    } else {
      assert s[1..][i - 1..i - 1 + |t|] == s[i..i + |t|];
      ContainsAt(s[1..], t, i - 1);
    }
  }

  /** A piece of a concatenation occurs in it. */
  lemma ContainsMiddle(a: string, t: string, b: string)
    ensures Contains(a + t + b, t)
  {
    assert (a + t + b)[|a|..|a| + |t|] == t;
    ContainsAt(a + t + b, t, |a|);
  }

  lemma {:induction false} ContainsWitness(s: string, t: string) returns (i: nat)
    requires Contains(s, t)
    ensures i + |t| <= |s| && s[i..i + |t|] == t
    decreases |s|
  {
    if StartsWith(s, t) {
      i := 0;
    } else {
      var j := ContainsWitness(s[1..], t);
      i := j + 1;
      assert s[i..i + |t|] == s[1..][j..j + |t|];
    }
  }

  /** A single character occurs in s exactly when some position holds it. */
  lemma ContainsChar(s: string, c: char)
    ensures Contains(s, [c]) <==> exists k :: 0 <= k < |s| && s[k] == c
  {
    if Contains(s, [c]) {
      var i := ContainsWitness(s, [c]);
      assert s[i] == s[i..i + 1][0];
    }
    if k :| 0 <= k < |s| && s[k] == c {
      assert s[k..k + 1] == [c];
      ContainsAt(s, [c], k);
    }
  }

  /**
   * Java String.toLowerCase, on the ASCII letters A to Z only; other
   * upper-case letters, including U+212A and U+0130, which Java lowers
   * into ASCII, are left as they are.
   */
  function LowerChar(c: char): char {
    if IsUpper(c) then (c as int + 32) as char else c
  }

  function ToLower(s: string): (r: string)
    ensures |r| == |s|
    ensures forall k :: 0 <= k < |s| ==> r[k] == LowerChar(s[k])
  {
    seq(|s|, k requires 0 <= k < |s| => LowerChar(s[k]))
  }

  // ---------------------------------------------------------------------
  // trim, isBlank
  // ---------------------------------------------------------------------

  /** Number of leading characters that trim() removes. */
  function LeadingTrimmable(s: string): (n: nat)
    ensures n <= |s|
    ensures forall k :: 0 <= k < n ==> IsTrimmable(s[k])
    ensures n < |s| ==> !IsTrimmable(s[n])
  {
    if |s| > 0 && IsTrimmable(s[0]) then 1 + LeadingTrimmable(s[1..]) else 0
  }

  /** Index just past the last character that trim() keeps. */
  function TrailingKept(s: string): (n: nat)
    ensures n <= |s|
    ensures forall k :: n <= k < |s| ==> IsTrimmable(s[k])
    ensures n > 0 ==> !IsTrimmable(s[n - 1])
  {
    if |s| > 0 && IsTrimmable(s[|s| - 1]) then TrailingKept(s[..|s| - 1]) else |s|
  }

  /** String.trim(). */
  function Trim(s: string): (r: string)
    ensures |r| <= |s|
    ensures r == [] || (!IsTrimmable(r[0]) && !IsTrimmable(r[|r| - 1]))
    ensures r == [] <==> forall k :: 0 <= k < |s| ==> IsTrimmable(s[k])
    ensures (|s| > 0 && !IsTrimmable(s[0]) && !IsTrimmable(s[|s| - 1])) ==> r == s
  {
    var t := s[LeadingTrimmable(s)..];
    assert t == [] ==> forall k :: 0 <= k < |s| ==> IsTrimmable(s[k]);
    t[..TrailingKept(t)]
  }

  /** The result of trim() is a slice of its input. */
  lemma TrimSlice(s: string) returns (a: nat, b: nat)
    ensures a <= b <= |s| && Trim(s) == s[a..b]
  {
    a := LeadingTrimmable(s);
    b := a + TrailingKept(s[a..]);
    assert s[a..][..TrailingKept(s[a..])] == s[a..b];
  }

  /** trim() is idempotent. */
  lemma TrimIdempotent(s: string)
    ensures Trim(Trim(s)) == Trim(s)
  {
  }

  /** trim().isEmpty(): every character is at most U+0020 (Trim states the equivalence). */
  predicate TrimsToEmpty(s: string) {
    forall k :: 0 <= k < |s| ==> IsTrimmable(s[k])
  }

  /** String.isBlank(): every character is Character.isWhitespace. */
  predicate IsBlank(s: string) {
    forall k :: 0 <= k < |s| ==> IsJavaWhitespace(s[k])
  }

  // ---------------------------------------------------------------------
  // Joining and splitting
  // ---------------------------------------------------------------------

  function Last<T>(s: seq<T>): T
    requires |s| > 0
  {
    s[|s| - 1]
  }

  /** String.join(sep, parts). */
  function Join(parts: seq<string>, sep: string): string
  {
    if |parts| == 0 then ""
    else if |parts| == 1 then parts[0]
    else Join(parts[..|parts| - 1], sep) + sep + Last(parts)
  }

  lemma JoinAppend(parts: seq<string>, x: string, sep: string)
    requires |parts| > 0
    ensures Join(parts + [x], sep) == Join(parts, sep) + sep + x
  {
    assert (parts + [x])[..|parts|] == parts;
  }

  lemma {:induction false} JoinCons(x: string, parts: seq<string>, sep: string)
    requires |parts| > 0
    ensures Join([x] + parts, sep) == x + sep + Join(parts, sep)
    decreases |parts|
  {
    if |parts| == 1 {
      assert [x] + parts == [x, parts[0]];
      assert [x, parts[0]][..1] == [x];
    } else {
      var init := parts[..|parts| - 1];
      assert ([x] + parts)[..|parts|] == [x] + init;
      JoinCons(x, init, sep);
    }
  }

  function Concat(parts: seq<string>): string
  {
    if |parts| == 0 then "" else Concat(parts[..|parts| - 1]) + Last(parts)
  }

  lemma EmptyAppend(a: string)
    ensures "" + a == a
  {
  }

  /** A string is the text before an occurrence of t, t, and the text after it. */
  lemma SliceAround(s: string, a: nat, i: nat, t: string)
    requires a <= i && i + |t| <= |s| && s[i..][..|t|] == t
    ensures s[a..] == s[a..i] + t + s[i + |t|..]
  {
    assert s[i..i + |t|] == t;
  }

  /** String concatenation regroups freely. */
  lemma AppendAssoc(a: string, b: string, c: string)
    ensures (a + b) + c == a + (b + c)
  {
  }

  lemma {:induction false} ConcatAppend(a: seq<string>, b: seq<string>)
    ensures Concat(a + b) == Concat(a) + Concat(b)
    decreases |b|
  {
    if b == [] {
      assert a + b == a;
    } else {
      var init := b[..|b| - 1];
      ConcatAppend(a, init);
      assert (a + b)[..|a + b| - 1] == a + init;
    }
  }

  /** A stream's flatMap: the results for the elements, in element order. */
  function FlatMap<T(!new), U(!new)>(f: T -> seq<U>, xs: seq<T>): (r: seq<U>)
    ensures forall y :: y in r <==> exists x :: x in xs && y in f(x)
  {
    if |xs| == 0 then [] else FlatMap(f, xs[..|xs| - 1]) + f(Last(xs))
  }

  lemma {:induction false} FlatMapAppend<T(!new), U(!new)>(f: T -> seq<U>, a: seq<T>, b: seq<T>)
    ensures FlatMap(f, a + b) == FlatMap(f, a) + FlatMap(f, b)
    decreases |b|
  {
    if b == [] {
      assert a + b == a;
    } else {
      var init := b[..|b| - 1];
      FlatMapAppend(f, a, init);
      assert (a + b)[..|a + b| - 1] == a + init;
    }
  }

  lemma FlatMapOne<T(!new), U(!new)>(f: T -> seq<U>, x: T)
    ensures FlatMap(f, [x]) == f(x)
  {
    assert [x][..0] == [];
  }

  /** The delimiters the core hands to String.split. */
  datatype Delim =
    | Literal(text: string)           // a fixed string such as "\n" or "\n\n"
    | Runs(cls: CharClass, min: nat)  // a class repeated at least `min` times, as in \s+ or \s{2,}
    | SectionMarker                   // "SECTION \d+:"

  /** Length of the delimiter match beginning at position i (0: no match). */
  function MatchLen(d: Delim, s: string, i: nat): (k: nat)
    requires i <= |s|
    ensures i + k <= |s|
  {
    match d
    case Literal(t) =>
      if |t| > 0 && StartsWith(s[i..], t) then |t| else 0
    case Runs(cls, m) =>
      var j := RunEnd(s, cls, i);
      if m > 0 && j - i >= m then j - i else 0
    case SectionMarker =>
      if StartsWith(s[i..], "SECTION ") then
        var j := RunEnd(s, Digit, i + 8);
        if j > i + 8 && j < |s| && s[j] == ':' then j + 1 - i else 0
      else 0
  }

  /**
   * The pieces between the delimiter matches found scanning left to right
   * from position i, the current piece starting at `start`.
   */
  function SplitPieces(d: Delim, s: string, start: nat, i: nat): (r: seq<string>)
    requires start <= i <= |s|
    ensures |r| >= 1
    decreases |s| - i
  {
    if i == |s| then [s[start..]]
    else
      var k := MatchLen(d, s, i);
      if k > 0 then [s[start..i]] + SplitPieces(d, s, i + k, i + k)
      else SplitPieces(d, s, start, i + 1)
  }

  function DropTrailingEmpty(ps: seq<string>): (r: seq<string>)
    ensures |r| <= |ps| && r == ps[..|r|]
    ensures r == [] || Last(r) != ""
    ensures forall k :: |r| <= k < |ps| ==> ps[k] == ""
  {
    if |ps| == 0 then []
    else if Last(ps) == "" then DropTrailingEmpty(ps[..|ps| - 1])
    else ps
  }

  /**
   * String.split(regex) with limit 0: the input itself when nothing
   * matches, otherwise the pieces with trailing empty strings removed.
   */
  function Split(s: string, d: Delim): (r: seq<string>)
  {
    var ps := SplitPieces(d, s, 0, 0);
    if |ps| == 1 then ps else DropTrailingEmpty(ps)
  }

  /** No character of s[lo..hi] belongs to the class. */
  predicate AvoidsClass(s: string, cls: CharClass, lo: nat, hi: nat)
    requires lo <= hi <= |s|
  {
    forall k :: lo <= k < hi ==> !InClass(cls, s[k])
  }

  /**
   * Splitting on runs of a class (as with "\\W+" or "\\s+") leaves pieces
   * that are slices of the input holding no character of the class.
   */
  lemma {:induction false} RunsPieces(cls: CharClass, s: string, start: nat, i: nat)
    requires start <= i <= |s| && AvoidsClass(s, cls, start, i)
    ensures forall p :: p in SplitPieces(Runs(cls, 1), s, start, i) ==>
      exists a, b :: 0 <= a <= b <= |s| && p == s[a..b] && AvoidsClass(s, cls, a, b)
    decreases |s| - i
  {
    var d := Runs(cls, 1);
    if i == |s| {
      assert s[start..] == s[start..|s|];
    } else {
      var k := MatchLen(d, s, i);
      if k > 0 {
        RunsPieces(cls, s, i + k, i + k);
      } else {
        assert RunEnd(s, cls, i) == i;
        RunsPieces(cls, s, start, i + 1);
      }
    }
  }

  /** Every piece of a split on runs of a class is a slice free of that class. */
  lemma SplitRuns(cls: CharClass, s: string, p: string)
    requires p in Split(s, Runs(cls, 1))
    ensures Contains(s, p)
    ensures forall k :: 0 <= k < |p| ==> !InClass(cls, p[k])
  {
    var ps := SplitPieces(Runs(cls, 1), s, 0, 0);
    RunsPieces(cls, s, 0, 0);
    assert p in ps;
    var a, b :| 0 <= a <= b <= |s| && p == s[a..b] && AvoidsClass(s, cls, a, b);
    ContainsAt(s, p, a);
    forall k | 0 <= k < |p| ensures !InClass(cls, p[k]) {
      assert p[k] == s[a + k];
    }
  }

  /** When the input ends in a character outside the class, the last piece of the split is not empty. */
  lemma {:induction false} RunsLastPiece(cls: CharClass, s: string, start: nat, i: nat)
    requires start <= i <= |s| && start < |s| && !InClass(cls, Last(s))
    ensures Last(SplitPieces(Runs(cls, 1), s, start, i)) != ""
    decreases |s| - i
  {
    var d := Runs(cls, 1);
    if i < |s| {
      var k := MatchLen(d, s, i);
      if k > 0 {
        assert i + k < |s|;
        RunsLastPiece(cls, s, i + k, i + k);
      } else {
        RunsLastPiece(cls, s, start, i + 1);
      }
    }
  }

  /** Splitting on runs of a class never yields the empty array when the input ends outside the class or is empty. */
  lemma SplitRunsNonEmpty(cls: CharClass, s: string)
    requires s == [] || !InClass(cls, Last(s))
    ensures |Split(s, Runs(cls, 1))| > 0
  {
    if s != [] {
      RunsLastPiece(cls, s, 0, 0);
    }
  }

  /** A string without a delimiter match splits into itself. */
  lemma {:induction false} SplitPiecesNoMatch(d: Delim, s: string, start: nat, i: nat)
    requires start <= i <= |s|
    requires forall j :: i <= j < |s| ==> MatchLen(d, s, j) == 0
    ensures SplitPieces(d, s, start, i) == [s[start..]]
    decreases |s| - i
  {
    if i < |s| {
      SplitPiecesNoMatch(d, s, start, i + 1);
    }
  }

  /** Splitting on a literal and joining with it gives back the input. */
  lemma {:induction false} JoinSplitLiteral(t: string, s: string, start: nat, i: nat)
    requires |t| > 0 && start <= i <= |s|
    ensures Join(SplitPieces(Literal(t), s, start, i), t) == s[start..]
    decreases |s| - i
  {
    if i < |s| {
      var k := MatchLen(Literal(t), s, i);
      if k > 0 {
        var rest := SplitPieces(Literal(t), s, i + k, i + k);
        assert SplitPieces(Literal(t), s, start, i) == [s[start..i]] + rest;
        JoinSplitLiteral(t, s, i + k, i + k);
        JoinCons(s[start..i], rest, t);
        assert s[i..][..|t|] == t;
        SliceAround(s, start, i, t);
      } else {
        assert SplitPieces(Literal(t), s, start, i) == SplitPieces(Literal(t), s, start, i + 1);
        JoinSplitLiteral(t, s, start, i + 1);
      }
    }
  }

  // ---------------------------------------------------------------------
  // replaceAll for the fixed patterns of the core
  // ---------------------------------------------------------------------

  /** replaceAll("\\s+", " "). */
  function CollapseSpaces(s: string): (r: string)
    ensures r == [] <==> s == []
    ensures |s| > 0 && !IsRegexSpace(s[0]) ==> r[0] == s[0]
    ensures |s| > 0 && IsRegexSpace(s[0]) ==> r[0] == ' '
    ensures forall k :: 0 <= k < |r| ==> !IsRegexSpace(r[k]) || r[k] == ' '
    ensures NoDoubleSpace(r)
    decreases |s|
  {
    if |s| == 0 then ""
    else if IsRegexSpace(s[0]) then
      var j := RunEnd(s, Space, 0);
      " " + CollapseSpaces(s[j..])
    else [s[0]] + CollapseSpaces(s[1..])
  }

  /** Trimming keeps text free of triple newlines. */
  lemma TrimNoTriple(s: string)
    requires NoTripleNewline(s)
    ensures NoTripleNewline(Trim(s))
  {
    var a, b := TrimSlice(s);
    NoTripleSlice(s, a, b);
  }

  /** No three consecutive newlines. */
  ghost predicate NoTripleNewline(s: string) {
    forall i, j, l :: 0 <= i < j < l < |s| && j == i + 1 && l == j + 1 ==> !(s[i] == '\n' && s[j] == '\n' && s[l] == '\n')
  }

  /** Text without \s characters is left as it is by replaceAll("\\s+", " "). */
  lemma {:induction false} CollapseSpacesIdentity(s: string)
    requires forall k :: 0 <= k < |s| ==> !IsRegexSpace(s[k])
    ensures CollapseSpaces(s) == s
    decreases |s|
  {
    if |s| > 0 {
      CollapseSpacesIdentity(s[1..]);
    }
  }

  /** Collapsing white space brings in no control character that was not there. */
  lemma {:induction false} CollapseSpacesNoControl(s: string)
    requires NoRemovedControl(s)
    ensures NoRemovedControl(CollapseSpaces(s))
    decreases |s|
  {
    if |s| > 0 {
      if IsRegexSpace(s[0]) {
        var j := RunEnd(s, Space, 0);
        assert NoRemovedControl(s[j..]) by {
          forall k | 0 <= k < |s[j..]| ensures !IsRemovedControl(s[j..][k]) {
            assert s[j..][k] == s[j + k];
          }
        }
        CollapseSpacesNoControl(s[j..]);
      } else {
        assert NoRemovedControl(s[1..]) by {
          forall k | 0 <= k < |s[1..]| ensures !IsRemovedControl(s[1..][k]) {
            assert s[1..][k] == s[1 + k];
          }
        }
        CollapseSpacesNoControl(s[1..]);
      }
    }
  }

  /** No two adjacent spaces. */
  ghost predicate NoDoubleSpace(s: string) {
    forall i, j :: 0 <= i < j < |s| && j == i + 1 ==> !(s[i] == ' ' && s[j] == ' ')
  }

  lemma NoDoubleSpaceSlice(s: string, a: nat, b: nat)
    requires a <= b <= |s| && NoDoubleSpace(s)
    ensures NoDoubleSpace(s[a..b])
  {
    forall i, j | 0 <= i < j < |s[a..b]| && j == i + 1 ensures !(s[a..b][i] == ' ' && s[a..b][j] == ' ') {
      assert s[a..b][i] == s[a + i] && s[a..b][j] == s[a + j];
    }
  }

  /** replaceAll("\n{3,}", "\n\n"). */
  function CollapseNewlines(s: string): (r: string)
    ensures |r| <= |s|
    ensures NoTripleNewline(r)
    ensures r == [] <==> s == []
    ensures |s| > 0 ==> r[0] == s[0]
    decreases |s|
  {
    if |s| == 0 then ""
    else
      var j := RunEnd(s, Newline, 0);
      if j >= 3 then "\n\n" + CollapseNewlines(s[j..])
      else if j > 0 then s[..j] + CollapseNewlines(s[j..])
      else [s[0]] + CollapseNewlines(s[1..])
  }

  /** Text without a run of three newlines is left as it is. */
  lemma {:induction false} CollapseNewlinesIdentity(s: string)
    requires NoTripleNewline(s)
    ensures CollapseNewlines(s) == s
    decreases |s|
  {
    if |s| > 0 {
      var j := RunEnd(s, Newline, 0);
      assert !(|s| >= 3 && s[0] == '\n' && s[1] == '\n' && s[2] == '\n');
      var n := if j > 0 then j else 1;
      assert NoTripleNewline(s[n..]) by {
        forall i, j, l | 0 <= i < j < l < |s[n..]| && j == i + 1 && l == j + 1
          ensures !(s[n..][i] == '\n' && s[n..][j] == '\n' && s[n..][l] == '\n')
        {
          assert s[n..][i] == s[n + i] && s[n..][j] == s[n + j] && s[n..][l] == s[n + l];
        }
      }
      CollapseNewlinesIdentity(s[n..]);
    }
  }

  /** Collapsing newline runs a second time changes nothing. */
  lemma CollapseNewlinesIdempotent(s: string)
    ensures CollapseNewlines(CollapseNewlines(s)) == CollapseNewlines(s)
  {
    CollapseNewlinesIdentity(CollapseNewlines(s));
  }

  /** A slice of text without three consecutive newlines has none either. */
  lemma NoTripleSlice(s: string, a: nat, b: nat)
    requires a <= b <= |s| && NoTripleNewline(s)
    ensures NoTripleNewline(s[a..b])
  {
    forall i, j, l | 0 <= i < j < l < |s[a..b]| && j == i + 1 && l == j + 1
      ensures !(s[a..b][i] == '\n' && s[a..b][j] == '\n' && s[a..b][l] == '\n')
    {
      assert s[a..b][i] == s[a + i] && s[a..b][j] == s[a + j] && s[a..b][l] == s[a + l];
    }
  }

  /** replaceAll("[\\p{Cntrl}&&[^\r\n\t]]", ""). */
  function RemoveControls(s: string): (r: string)
    ensures |r| <= |s|
    ensures NoRemovedControl(r)
    ensures SpaceNormal(s) ==> SpaceNormal(r)
  {
    if |s| == 0 then ""
    else if IsRemovedControl(s[0]) then RemoveControls(s[1..])
    else [s[0]] + RemoveControls(s[1..])
  }

  /** The only white space left is the plain space (the result of replaceAll("\\s+", " ")). */
  predicate SpaceNormal(s: string) {
    forall k :: 0 <= k < |s| ==> !IsRegexSpace(s[k]) || s[k] == ' '
  }

  predicate NoRemovedControl(s: string) {
    forall k :: 0 <= k < |s| ==> !IsRemovedControl(s[k])
  }

  lemma CleanSlice(s: string, a: nat, b: nat)
    requires a <= b <= |s|
    ensures SpaceNormal(s) ==> SpaceNormal(s[a..b])
    ensures NoRemovedControl(s) ==> NoRemovedControl(s[a..b])
    ensures NoDoubleSpace(s) ==> NoDoubleSpace(s[a..b])
  {
    if NoDoubleSpace(s) {
      NoDoubleSpaceSlice(s, a, b);
    }
    assert forall k :: 0 <= k < b - a ==> s[a..b][k] == s[a + k];
  }

  /** Trimming keeps the character-level properties above. */
  lemma TrimKeepsClean(s: string)
    ensures SpaceNormal(s) ==> SpaceNormal(Trim(s))
    ensures NoRemovedControl(s) ==> NoRemovedControl(Trim(s))
    ensures NoDoubleSpace(s) ==> NoDoubleSpace(Trim(s))
  {
    var a, b := TrimSlice(s);
    CleanSlice(s, a, b);
  }

  /** A control character that replaceAll("[\\p{Cntrl}&&[^\r\n\t]]", "") removes. */
  predicate IsRemovedControl(c: char) { IsControl(c) && c !in "\r\n\t" }

  /** Text without removable control characters is left as it is. */
  lemma {:induction false} RemoveControlsIdentity(s: string)
    requires forall k :: 0 <= k < |s| ==> !IsRemovedControl(s[k])
    ensures RemoveControls(s) == s
    decreases |s|
  {
    if |s| > 0 {
      RemoveControlsIdentity(s[1..]);
    }
  }

  /** Removes every occurrence of one character (replaceAll of a literal character with ""). */
  function RemoveChar(s: string, c: char): (r: string)
    ensures |r| <= |s|
    ensures forall k :: 0 <= k < |r| ==> r[k] != c
    ensures SpaceNormal(s) ==> SpaceNormal(r)
    ensures NoRemovedControl(s) ==> NoRemovedControl(r)
  {
    if |s| == 0 then ""
    else if s[0] == c then RemoveChar(s[1..], c)
    else [s[0]] + RemoveChar(s[1..], c)
  }

  /** String.replace(target, replacement): non-overlapping, left to right. */
  function ReplaceLiteral(s: string, target: string, repl: string): string
    requires |target| > 0
    decreases |s|
  {
    if |s| < |target| then s
    else if s[..|target|] == target then repl + ReplaceLiteral(s[|target|..], target, repl)
    else [s[0]] + ReplaceLiteral(s[1..], target, repl)
  }

  /** Replacing a target that does not occur changes nothing. */
  lemma {:induction false} ReplaceAbsent(s: string, target: string, repl: string)
    requires |target| > 0 && !Contains(s, target)
    ensures ReplaceLiteral(s, target, repl) == s
    decreases |s|
  {
    if |s| >= |target| {
      assert !StartsWith(s, target);
      ReplaceAbsent(s[1..], target, repl);
    }
  }

  // ---------------------------------------------------------------------
  // Integer.toString for non-negative values
  // ---------------------------------------------------------------------

  function DigitChar(d: nat): char
    requires d < 10
  {
    ('0' as int + d) as char
  }

  /** The decimal digits of n, as Integer.toString(n) prints them. */
  function NatToString(n: nat): (r: string)
    ensures |r| > 0
    ensures forall k :: 0 <= k < |r| ==> IsDigit(r[k])
  {
    if n < 10 then [DigitChar(n)] else NatToString(n / 10) + [DigitChar(n % 10)]
  }

  /** Integer.toString / Long.toString of any value. */
  function IntToString(n: int): (r: string)
    ensures n >= 0 ==> r == NatToString(n)
    ensures n < 0 ==> r == "-" + NatToString(-n)
  {
    if n < 0 then "-" + NatToString(-n) else NatToString(n)
  }

  /** The value of a string of decimal digits (Integer.parseInt on such a string). */
  function DigitsValue(s: string): nat
  {
    if |s| == 0 then 0
    else
      var d := Last(s) as int - '0' as int;
      DigitsValue(s[..|s| - 1]) * 10 + (if 0 <= d < 10 then d else 0)
  }

  /** Reading back printed digits gives the number. */
  lemma {:induction false} DigitsValueOfNatToString(n: nat)
    ensures DigitsValue(NatToString(n)) == n
  {
    if n >= 10 {
      DigitsValueOfNatToString(n / 10);
      var r := NatToString(n / 10) + [DigitChar(n % 10)];
      assert r[..|r| - 1] == NatToString(n / 10);
    }
  }

  /** Different numbers print differently. */
  lemma NatToStringInjective(m: nat, n: nat)
    ensures NatToString(m) == NatToString(n) ==> m == n
  {
    DigitsValueOfNatToString(m);
    DigitsValueOfNatToString(n);
  }
}
