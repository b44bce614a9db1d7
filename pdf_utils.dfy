/**
 * PdfUtils: turning the text of a page into paragraphs, cleaning a
 * paragraph, and cutting a document's text at its "SECTION n:" markers.
 */
module PdfUtils {
  import opened JavaStrings
  import Dto

  /** Java's message for a bad path, which the paragraph splitter filters out. */
  const BadPathMessage := "(The filename, directory name, or volume label syntax is incorrect)"

  /** p.matches("^[\\d\\s]+$"). */
  predicate DigitsAndSpacesOnly(p: string) {
    |p| > 0 && forall k :: 0 <= k < |p| ==> IsDigit(p[k]) || IsRegexSpace(p[k])
  }

  /** replaceAll("^\\d+\\.\\s*", ""): a leading "N." and the white space after it. */
  function StripNumbering(s: string): (r: string)
    ensures |r| <= |s| && r == s[|s| - |r|..]
  {
    var j := RunEnd(s, Digit, 0);
    if j > 0 && j < |s| && s[j] == '.' then s[RunEnd(s, Space, j + 1)..] else s
  }


  /**
   * cleanParagraph: white-space runs become one space, control characters
   * are removed, a leading "N." is removed, and the result is trimmed.
   * The replacements `-\s*\n\s*` -> "" and `\n` -> " " in between run on
   * text that no longer contains '\n' (see HyphenRepairNeverMatches), so
   * they change nothing and are not part of the composition.
   */
  function CleanParagraph(p: string): (r: string)
    ensures SpaceNormal(r) && NoRemovedControl(r)
    ensures r == [] || (!IsTrimmable(r[0]) && !IsTrimmable(r[|r| - 1]))
  {
    var a := CollapseSpaces(p);
    var b := RemoveControls(a);
    var c := StripNumbering(b);
    StripKeepsClean(b);
    TrimKeepsClean(c);
    Trim(c)
  }

  /** Removing the numbering keeps the character-level properties (the rest is a suffix). */
  lemma StripKeepsClean(b: string)
    ensures SpaceNormal(b) ==> SpaceNormal(StripNumbering(b))
    ensures NoRemovedControl(b) ==> NoRemovedControl(StripNumbering(b))
  {
    var c := StripNumbering(b);
    CleanSlice(b, |b| - |c|, |b|);
    assert b[|b| - |c|..|b|] == c;
  }

  /** After the first replacement of cleanParagraph there is no '\n' left for the second to match. */
  lemma HyphenRepairNeverMatches(p: string)
    ensures '\n' !in CollapseSpaces(p)
  {
  }

  /**
   * A cleaned paragraph has no run of spaces, provided the paragraph held no
   * control characters: removing a control character that sat between two
   * spaces would join them.
   */
  lemma CleanParagraphSingleSpaced(p: string)
    requires NoRemovedControl(p)
    ensures NoDoubleSpace(CleanParagraph(p))
  {
    var a := CollapseSpaces(p);
    CollapseSpacesNoControl(p);
    RemoveControlsIdentity(a);
    assert CleanParagraph(p) == Trim(StripNumbering(a));
    StrippedSingleSpaced(a);
  }

  lemma StrippedSingleSpaced(a: string)
    requires NoDoubleSpace(a)
    ensures NoDoubleSpace(Trim(StripNumbering(a)))
  {
    var c := StripNumbering(a);
    NoDoubleSpaceSlice(a, |a| - |c|, |a|);
    assert a[|a| - |c|..|a|] == c;
    TrimKeepsClean(c);
  }

  /** With a control character between two spaces, the cleaned paragraph keeps two spaces. */
  lemma ControlCharacterLeavesDoubleSpace()
    ensures CleanParagraph("a \U{0001} b") == "a  b"
  {
    ControlBetweenSpacesCollapse();
    ControlBetweenSpacesRemoved();
    assert StripNumbering("a  b") == "a  b";
  }

  lemma ControlBetweenSpacesCollapse()
    ensures CollapseSpaces("a \U{0001} b") == "a \U{0001} b"
  {
    var p := "a \U{0001} b";
    assert CollapseSpaces(p[4..]) == "b";
    assert CollapseSpaces(p[3..]) == " b";
    assert CollapseSpaces(p[2..]) == "\U{0001} b";
  }

  lemma ControlBetweenSpacesRemoved()
    ensures RemoveControls("a \U{0001} b") == "a  b"
  {
    var p := "a \U{0001} b";
    assert RemoveControls(p[3..]) == " b";
    assert p[2..][1..] == p[3..] && IsRemovedControl(p[2]);
    assert RemoveControls(p[2..]) == " b";
    assert p[1..][1..] == p[2..];
    assert RemoveControls(p[1..]) == "  b";
  }

  // ---------------------------------------------------------------------
  // splitIntoParagraphs
  // ---------------------------------------------------------------------

  /** The filters applied to a trimmed piece before it is cleaned. */
  predicate KeptPiece(piece: string) {
    var t := Trim(piece);
    t != "" && |t| > 10 && !DigitsAndSpacesOnly(t)
  }

  /** What one piece of the split contributes: its cleaned text, if it passes both filters. */
  function PieceParagraph(piece: string): (r: seq<string>)
    ensures r == [] || (|r| == 1 && !Contains(r[0], BadPathMessage) && SpaceNormal(r[0]))
  {
    var p := CleanParagraph(Trim(piece));
    if KeptPiece(piece) && !Contains(p, BadPathMessage) then [p] else []
  }

  /** The pipeline of splitIntoParagraphs after the split: trim, filter, clean, filter. */
  function Paragraphs(pieces: seq<string>): seq<string>
  {
    FlatMap(PieceParagraph, pieces)
  }

  /** Every paragraph is cleaned and free of the bad-path message; there are at most as many as pieces. */
  lemma {:induction false} ParagraphsClean(pieces: seq<string>)
    ensures |Paragraphs(pieces)| <= |pieces|
    ensures forall k :: 0 <= k < |Paragraphs(pieces)| ==>
              !Contains(Paragraphs(pieces)[k], BadPathMessage) && SpaceNormal(Paragraphs(pieces)[k])
  {
    if |pieces| > 0 {
      ParagraphsClean(pieces[..|pieces| - 1]);
    }
  }

  /** One piece gives its cleaned text exactly when it passes both filters. */
  lemma ParagraphsOfOne(piece: string)
    ensures Paragraphs([piece]) ==
      (if KeptPiece(piece) && !Contains(CleanParagraph(Trim(piece)), BadPathMessage)
       then [CleanParagraph(Trim(piece))] else [])
  {
    FlatMapOne(PieceParagraph, piece);
  }

  /** The pipeline keeps the order of the pieces: it distributes over concatenation. */
  lemma ParagraphsAppend(a: seq<string>, b: seq<string>)
    ensures Paragraphs(a + b) == Paragraphs(a) + Paragraphs(b)
  {
    FlatMapAppend(PieceParagraph, a, b);
  }

  /** splitIntoParagraphs. */
  function SplitIntoParagraphs(text: string): (r: seq<string>)
    ensures text == "" ==> r == []
    ensures forall k :: 0 <= k < |r| ==> !Contains(r[k], BadPathMessage) && SpaceNormal(r[k])
  {
    if text == "" then []
    else
      ParagraphsClean(Split(text, Runs(LineBreak, 2)));
      Paragraphs(Split(text, Runs(LineBreak, 2)))
  }

  /** Text without two line breaks in a row is a single piece. */
  lemma SingleBlock(text: string)
    requires text != ""
    requires forall k :: 0 <= k < |text| ==> text[k] != '\n' && text[k] != '\r'
    ensures SplitIntoParagraphs(text) == Paragraphs([text])
  {
    SplitPiecesNoMatch(Runs(LineBreak, 2), text, 0, 0);
  }

  /**
   * The length filter runs before cleaning, so a piece that is only a list
   * number, such as "12345678901.", passes it and comes out empty.
   */
  lemma NumberOnlyParagraphIsEmpty(digits: string)
    requires |digits| >= 10 && forall k :: 0 <= k < |digits| ==> IsDigit(digits[k])
    ensures SplitIntoParagraphs(digits + ".") == [""]
  {
    var t := digits + ".";
    NumberIsKeptAndCleanedAway(digits);
    NumberChars(digits);
    SingleBlock(t);
    assert !Contains("", BadPathMessage);
    ParagraphsOfOne(t);
    assert Paragraphs([t]) == [""];
  }

  /** Eleven em spaces: trim() keeps U+2003, which lies above U+0020, while isBlank() rejects it. */
  const EmSpaces: string := seq(11, _ => '\U{2003}')

  /** A page text of eleven em spaces passes every filter and comes out as one unchanged paragraph. */
  lemma EmSpacesParagraph()
    ensures SplitIntoParagraphs(EmSpaces) == [EmSpaces]
  {
    var t := EmSpaces;
    forall k | 0 <= k < |t|
      ensures !IsTrimmable(t[k]) && !IsRegexSpace(t[k]) && !IsRemovedControl(t[k])
      ensures t[k] != '\n' && t[k] != '\r' && !IsDigit(t[k])
    {
      assert t[k] == '\U{2003}';
    }
    assert Trim(t) == t;
    assert !DigitsAndSpacesOnly(t) by { assert !IsDigit(t[0]) && !IsRegexSpace(t[0]); }
    CollapseSpacesIdentity(t);
    RemoveControlsIdentity(t);
    assert RunEnd(t, Digit, 0) == 0;
    assert CleanParagraph(t) == t;
    assert !Contains(t, BadPathMessage) by {
      if Contains(t, BadPathMessage) {
        var i := ContainsWitness(t, BadPathMessage);
      }
    }
    SingleBlock(t);
    ParagraphsOfOne(t);
  }

  /** A number followed by '.' holds no white space and no control character. */
  lemma NumberChars(digits: string)
    requires forall k :: 0 <= k < |digits| ==> IsDigit(digits[k])
    ensures var t := digits + ".";
      forall k :: 0 <= k < |t| ==> !IsTrimmable(t[k]) && !IsRegexSpace(t[k]) && !IsRemovedControl(t[k])
  {
    var t := digits + ".";
    forall k | 0 <= k < |t|
      ensures !IsTrimmable(t[k]) && !IsRegexSpace(t[k]) && !IsRemovedControl(t[k])
    {
      assert IsDigit(t[k]) || t[k] == '.';
    }
  }

  lemma NumberIsKeptAndCleanedAway(digits: string)
    requires |digits| >= 10 && forall k :: 0 <= k < |digits| ==> IsDigit(digits[k])
    ensures KeptPiece(digits + ".") && Trim(digits + ".") == digits + "."
    ensures CleanParagraph(digits + ".") == ""
  {
    var t := digits + ".";
    NumberChars(digits);
    assert Trim(t) == t;
    assert !DigitsAndSpacesOnly(t) by { assert t[|t| - 1] == '.'; }
    CollapseSpacesIdentity(t);
    RemoveControlsIdentity(t);
    assert RunEnd(t, Digit, 0) == |digits| by { assert t[|digits|] == '.'; }
    assert StripNumbering(t) == "";
  }

  // ---------------------------------------------------------------------
  // Sections
  // ---------------------------------------------------------------------

  /** The paragraphs of one section: split on "\n\n", trimmed, longer than 10, cleaned. */
  function SectionParagraphs(section: string): seq<string>
  {
    SectionPieces(Split(section, Literal("\n\n")))
  }

  function SectionPieces(pieces: seq<string>): seq<string>
  {
    if |pieces| == 0 then []
    else
      var t := Trim(Last(pieces));
      SectionPieces(pieces[..|pieces| - 1]) + (if t != "" && |t| > 10 then [CleanParagraph(t)] else [])
  }

  /** The paragraphs of the non-blank sections, in order. */
  function Structured(sections: seq<string>): seq<string>
  {
    if |sections| == 0 then []
    else
      var s := Last(sections);
      Structured(sections[..|sections| - 1]) + (if TrimsToEmpty(s) then [] else SectionParagraphs(s))
  }

  /** extractStructuredContent. */
  function ExtractStructuredContent(text: string): (r: seq<string>)
    ensures text == "" ==> r == []
  {
    if text == "" then [] else Structured(Split(text, SectionMarker))
  }

  /** The key of piece i: "HEADER" for the text before the first marker, else "SECTION i". */
  function SectionKey(i: nat): string
  {
    if i == 0 then "HEADER" else "SECTION " + NatToString(i)
  }

  lemma SectionKeyInjective(i: nat, j: nat)
    ensures SectionKey(i) == SectionKey(j) ==> i == j
  {
    if i != 0 && j != 0 && SectionKey(i) == SectionKey(j) {
      assert NatToString(i) == SectionKey(i)[8..];
      assert NatToString(j) == SectionKey(j)[8..];
      NatToStringInjective(i, j);
    }
    if i == 0 && j != 0 {
      assert SectionKey(i)[0] != SectionKey(j)[0];
    }
    if j == 0 && i != 0 {
      assert SectionKey(i)[0] != SectionKey(j)[0];
    }
  }

  /** A LinkedHashMap from section keys to paragraph lists, as its entries in insertion order. */
  type SectionMap = seq<(string, seq<string>)>

  predicate HasKey(m: SectionMap, k: string) {
    exists i :: 0 <= i < |m| && m[i].0 == k
  }

  /** LinkedHashMap.put: a new key goes last, an existing key keeps its place and gets the new value. */
  function Put(m: SectionMap, k: string, v: seq<string>): (r: SectionMap)
    ensures !HasKey(m, k) ==> r == m + [(k, v)]
    ensures HasKey(m, k) ==> |r| == |m|
  {
    if |m| == 0 then [(k, v)]
    else if m[0].0 == k then [(k, v)] + m[1..]
    else
      assert HasKey(m, k) ==> HasKey(m[1..], k) by {
        if HasKey(m, k) {
          var i :| 0 <= i < |m| && m[i].0 == k;
          assert m[1..][i - 1] == m[i];
        }
      }
      [m[0]] + Put(m[1..], k, v)
  }

  /** All the paragraph lists of a map, in entry order. */
  function Flatten(m: SectionMap): seq<string>
  {
    if |m| == 0 then [] else Flatten(m[..|m| - 1]) + Last(m).1
  }

  /**
   * The map built from the first i pieces: entry k holds piece idx[k], the
   * pieces are taken in order, every non-blank one among them is taken, and
   * the entries' lists flattened are the structured paragraphs of those pieces.
   */
  ghost predicate SectionsSoFar(pieces: seq<string>, i: nat, m: SectionMap, idx: seq<nat>)
    requires i <= |pieces|
  {
    && EntriesFrom(pieces, i, m, idx)
    && Dto.Increasing(idx)
    && AllTaken(pieces, i, idx)
    && Flatten(m) == Structured(pieces[..i])
  }

  /** Appending an index larger than all the others keeps the sequence increasing. */
  lemma IncreasingSnoc(idx: seq<nat>, i: nat)
    requires Dto.Increasing(idx) && (forall k :: 0 <= k < |idx| ==> idx[k] < i)
    ensures Dto.Increasing(idx + [i])
  {
    assert (idx + [i])[..|idx|] == idx;
  }

  /** Entry k holds piece idx[k], which comes before i and is not blank. */
  ghost predicate EntriesFrom(pieces: seq<string>, i: nat, m: SectionMap, idx: seq<nat>)
    requires i <= |pieces|
  {
    && |idx| == |m|
    && (forall k :: 0 <= k < |idx| ==>
          idx[k] < i && !TrimsToEmpty(pieces[idx[k]])
          && m[k] == (SectionKey(idx[k]), SectionParagraphs(pieces[idx[k]])))
  }

  /** Every non-blank piece before i is taken. */
  ghost predicate AllTaken(pieces: seq<string>, i: nat, idx: seq<nat>)
    requires i <= |pieces|
  {
    forall j :: 0 <= j < i && !TrimsToEmpty(pieces[j]) ==> j in idx
  }

  /** A blank piece adds no entry. */
  lemma SectionsSkip(pieces: seq<string>, i: nat, m: SectionMap, idx: seq<nat>)
    requires i < |pieces| && TrimsToEmpty(pieces[i])
    requires SectionsSoFar(pieces, i, m, idx)
    ensures SectionsSoFar(pieces, i + 1, m, idx)
  {
    StructuredSnoc(pieces, i);
  }

  /** The key of a new piece is not yet in the map. */
  lemma SectionsFreshKey(pieces: seq<string>, i: nat, m: SectionMap, idx: seq<nat>)
    requires i < |pieces|
    requires SectionsSoFar(pieces, i, m, idx)
    ensures !HasKey(m, SectionKey(i))
  {
    forall k | 0 <= k < |m| ensures m[k].0 != SectionKey(i) {
      SectionKeyInjective(idx[k], i);
    }
  }

  lemma FlattenSnoc(m: SectionMap, e: (string, seq<string>))
    ensures Flatten(m + [e]) == Flatten(m) + e.1
  {
    assert (m + [e])[..|m|] == m;
  }

  lemma StructuredSnoc(pieces: seq<string>, i: nat)
    requires i < |pieces|
    ensures Structured(pieces[..i + 1])
         == Structured(pieces[..i]) + (if TrimsToEmpty(pieces[i]) then [] else SectionParagraphs(pieces[i]))
  {
    assert pieces[..i + 1][..i] == pieces[..i];
  }

  /** Entry k of the extended map still holds piece idx[k]. */
  lemma SectionsAddEntries(pieces: seq<string>, i: nat, m: SectionMap, idx: seq<nat>)
    requires i < |pieces| && !TrimsToEmpty(pieces[i])
    requires EntriesFrom(pieces, i, m, idx)
    ensures EntriesFrom(pieces, i + 1, m + [(SectionKey(i), SectionParagraphs(pieces[i]))], idx + [i])
  {
  }

  /** Every non-blank piece up to i is taken. */
  lemma SectionsAddAll(pieces: seq<string>, i: nat, idx: seq<nat>)
    requires i < |pieces|
    requires AllTaken(pieces, i, idx)
    ensures AllTaken(pieces, i + 1, idx + [i])
  {
    forall j | 0 <= j < i + 1 && !TrimsToEmpty(pieces[j]) ensures j in idx + [i] {
      if j < i {
        assert j in idx;
      }
    }
  }

  /** A non-blank piece adds its entry at the end. */
  lemma SectionsAdd(pieces: seq<string>, i: nat, m: SectionMap, idx: seq<nat>)
    requires i < |pieces| && !TrimsToEmpty(pieces[i])
    requires SectionsSoFar(pieces, i, m, idx)
    ensures SectionsSoFar(pieces, i + 1, m + [(SectionKey(i), SectionParagraphs(pieces[i]))], idx + [i])
  {
    FlattenSnoc(m, (SectionKey(i), SectionParagraphs(pieces[i])));
    StructuredSnoc(pieces, i);
    SectionsAddEntries(pieces, i, m, idx);
    SectionsAddAll(pieces, i, idx);
    IncreasingSnoc(idx, i);
  }

  /**
   * The map extractDocumentSections builds: entry k holds piece idx[k] of
   * the split under its key, the pieces are taken in order, no blank piece
   * is taken and every other one is.
   */
  ghost predicate SectionsOf(text: string, m: SectionMap, idx: seq<nat>) {
    var pieces := Split(text, SectionMarker);
    && |idx| == |m|
    && (forall k :: 0 <= k < |idx| ==>
          idx[k] < |pieces| && !TrimsToEmpty(pieces[idx[k]])
          && m[k] == (SectionKey(idx[k]), SectionParagraphs(pieces[idx[k]])))
    && Dto.Increasing(idx)
    && (forall i :: 0 <= i < |pieces| && !TrimsToEmpty(pieces[i]) ==> i in idx)
  }

  /** What the section loop has built once every piece is visited. */
  lemma SectionsDone(text: string, m: SectionMap, idx: seq<nat>)
    requires SectionsSoFar(Split(text, SectionMarker), |Split(text, SectionMarker)|, m, idx)
    ensures SectionsOf(text, m, idx)
    ensures Flatten(m) == ExtractStructuredContent(text)
  {
    var pieces := Split(text, SectionMarker);
    assert pieces[..|pieces|] == pieces;
    if text == "" {
      assert pieces == [""];
    }
  }

  /** extractDocumentSections; `idx` tells which piece of the split each entry came from. */
  method ExtractDocumentSections(text: string) returns (documentSections: SectionMap, ghost idx: seq<nat>)
    ensures SectionsOf(text, documentSections, idx)
    ensures Flatten(documentSections) == ExtractStructuredContent(text)
  {
    documentSections := [];
    idx := [];
    var sections := Split(text, SectionMarker);
    for i := 0 to |sections|
      invariant SectionsSoFar(sections, i, documentSections, idx)
    {
      if TrimsToEmpty(sections[i]) {
        SectionsSkip(sections, i, documentSections, idx);
        continue;
      }
      var sectionKey := SectionKey(i);
      var sectionParagraphs := SectionParagraphs(sections[i]);
      SectionsFreshKey(sections, i, documentSections, idx);
      SectionsAdd(sections, i, documentSections, idx);
      documentSections := Put(documentSections, sectionKey, sectionParagraphs);
      idx := idx + [i as nat];
    }
    SectionsDone(text, documentSections, idx);
  }
}
