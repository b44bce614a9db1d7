/**
 * The rules of DocumentService's semantic chunker (generateSemanticChunks)
 * stated on pieces: the tests applied to each paragraph, the paragraphs
 * the chunker consumes, the text a chunk renders, and what a well-built
 * chunk is. The classifier is a parameter `detect`: the service passes
 * ContentUtils.DetectContentType, and every property here holds for any
 * classifier.
 */
module ChunkRules {
  import opened JavaStrings
  import opened Dto
  import opened ContentUtils
  import PdfUtils


  // ---------------------------------------------------------------------
  // The tests applied to each paragraph
  // ---------------------------------------------------------------------

  /** isSpecialContentType: the six code types and TABLE; null, XML and JSON are not special. */
  predicate IsSpecialContentType(t: Option<ContentType>): (r: bool)
    ensures t.None? ==> !r
    ensures t == Some(CodeXml) || t == Some(CodeJson) || t == Some(Text) ==> !r
    ensures t == Some(Table) ==> r
  {
    t.Some? && (t.value == CodeJava || t.value == CodePython || t.value == CodeJavaScript
                || t.value == CodeCSharp || t.value == CodeSql || t.value == CodeOther || t.value == Table)
  }

  /** paragraph.matches("\\d+\\.\\s.*"): digits, a dot, one white-space character, then no line terminator. */
  predicate NumberedItem(p: string) {
    var j := RunEnd(p, Digit, 0);
    j > 0 && j + 1 < |p| && p[j] == '.' && IsRegexSpace(p[j + 1]) && NoLineTerminator(p[j + 2..])
  }

  /** The paragraph opens a list item: "- ", "* " or "N. ". */
  predicate StartsListItem(p: string) {
    StartsWith(p, "- ") || StartsWith(p, "* ") || NumberedItem(p)
  }

  /** The condition that sets inList: a table or a list item. */
  predicate ListLike(p: string, detect: string -> ContentType) {
    detect(p) == Table || StartsListItem(p)
  }

  /**
   * t.matches("^[0-9.]+\\s+.*"): digits and dots, white space, and a rest
   * without line terminators (the rest starts where the white space ends,
   * since `\s+` may give back all but one of its characters).
   */
  predicate NumberLabel(t: string) {
    var j := RunEnd(t, DigitOrDot, 0);
    j > 0 && j < |t| && IsRegexSpace(t[j]) && NoLineTerminator(t[RunEnd(t, Space, j)..])
  }

  /** t.matches("^[A-Z][A-Za-z\\s]+$"). */
  predicate CapitalizedWords(t: string) {
    |t| >= 2 && IsUpper(t[0]) && forall k :: 1 <= k < |t| ==> IsLetter(t[k]) || IsRegexSpace(t[k])
  }

  /** t.matches("^[A-Z][A-Za-z\\s]+:$"). */
  predicate CapitalizedLabel(t: string) {
    |t| >= 3 && IsUpper(t[0]) && t[|t| - 1] == ':'
    && forall k :: 1 <= k < |t| - 1 ==> IsLetter(t[k]) || IsRegexSpace(t[k])
  }

  /** One of the three heading-like patterns, tested on the trimmed paragraph. */
  predicate LabelLike(p: string) {
    var t := Trim(p);
    NumberLabel(t) || CapitalizedWords(t) || CapitalizedLabel(t)
  }

  /** The special types are the code types other than XML and JSON, plus TABLE. */
  lemma SpecialIsCodeOrTable(t: ContentType)
    ensures IsSpecialContentType(Some(t)) <==> (IsCodeType(t) && t != CodeXml && t != CodeJson) || t == Table
  {
  }

  // ---------------------------------------------------------------------
  // What the chunker consumes
  // ---------------------------------------------------------------------

  /** The paragraphs that are not skipped as blank, in order. */
  function NonBlank(ps: seq<string>): (r: seq<string>)
    ensures |r| <= |ps|
    ensures forall k :: 0 <= k < |r| ==> !TrimsToEmpty(r[k])
  {
    if |ps| == 0 then []
    else NonBlank(ps[..|ps| - 1]) + (if TrimsToEmpty(Last(ps)) then [] else [Last(ps)])
  }

  /** Every paragraph the chunker appends: page by page, paragraph by paragraph. */
  function DocumentParagraphs(pages: seq<string>): (r: seq<string>)
    ensures forall k :: 0 <= k < |r| ==> !TrimsToEmpty(r[k])
  {
    if |pages| == 0 then []
    else DocumentParagraphs(pages[..|pages| - 1]) + NonBlank(PdfUtils.SplitIntoParagraphs(Last(pages)))
  }

  lemma NonBlankSnoc(ps: seq<string>, j: nat)
    requires j < |ps|
    ensures TrimsToEmpty(ps[j]) ==> NonBlank(ps[..j + 1]) == NonBlank(ps[..j])
    ensures !TrimsToEmpty(ps[j]) ==> NonBlank(ps[..j + 1]) == NonBlank(ps[..j]) + [ps[j]]
  {
    assert ps[..j + 1][..j] == ps[..j];
    assert NonBlank(ps[..j]) + [] == NonBlank(ps[..j]);
  }

  /** One step of the paragraph loop: a blank paragraph is skipped, any other is consumed. */
  lemma ConsumeParagraph(before: seq<string>, after: seq<string>, start: seq<string>, ps: seq<string>, j: nat)
    requires j < |ps|
    requires before == start + NonBlank(ps[..j])
    requires TrimsToEmpty(ps[j]) ==> after == before
    requires !TrimsToEmpty(ps[j]) ==> after == before + [ps[j]]
    ensures after == start + NonBlank(ps[..j + 1])
  {
    NonBlankSnoc(ps, j);
  }

  lemma DocumentParagraphsSnoc(pages: seq<string>, i: nat)
    requires i < |pages|
    ensures DocumentParagraphs(pages[..i + 1]) == DocumentParagraphs(pages[..i]) + NonBlank(PdfUtils.SplitIntoParagraphs(pages[i]))
  {
    assert pages[..i + 1][..i] == pages[..i];
  }

  // ---------------------------------------------------------------------
  // Chunks as pieces
  // ---------------------------------------------------------------------

  /**
   * The paragraphs of one emitted chunk, and the section whose
   * "[Section: ...]" prefix opened it, if any.
   */
  datatype Piece = Piece(section: Option<string>, paras: seq<string>)

  /** The prefix written when a chunk is re-seeded with the current section. */
  function SectionPrefix(section: string): (r: string)
    ensures |r| == |section| + 13
  {
    "[Section: " + section + "]\n\n"
  }

  /** Each paragraph preceded by "\n\n" (the buffer was never empty when it was appended). */
  function Separated(ps: seq<string>): string
  {
    if |ps| == 0 then "" else Separated(ps[..|ps| - 1]) + "\n\n" + Last(ps)
  }

  /** The text of a chunk with these paragraphs. */
  function Render(pc: Piece): string
  {
    match pc.section
    case None => Join(pc.paras, "\n\n")
    case Some(s) => SectionPrefix(s) + Separated(pc.paras)
  }

  /** Appending a paragraph: a "\n\n" goes first unless the buffer is empty. */
  lemma RenderAppend(pc: Piece, p: string)
    ensures Render(Piece(pc.section, pc.paras + [p]))
         == if pc.section.None? && pc.paras == [] then p else Render(pc) + "\n\n" + p
  {
    var ps := pc.paras + [p];
    assert ps[..|ps| - 1] == pc.paras;
    if pc.section.None? && pc.paras != [] {
      JoinAppend(pc.paras, p, "\n\n");
    }
  }

  /** A buffer is empty exactly when it holds no paragraph and no prefix. */
  lemma RenderEmpty(pc: Piece)
    requires forall k :: 0 <= k < |pc.paras| ==> pc.paras[k] != ""
    ensures Render(pc) == "" <==> pc.section.None? && pc.paras == []
  {
    if pc.section.None? && |pc.paras| > 1 {
      assert |Render(pc)| >= |Last(pc.paras)|;
    }
  }

  /** A "[Section: ...]" prefix names a non-empty section. */
  predicate SectionNamed(pc: Piece) {
    pc.section.Some? ==> pc.section.value != ""
  }

  predicate NoBlank(ps: seq<string>) {
    forall j :: 0 <= j < |ps| ==> !TrimsToEmpty(ps[j])
  }

  /** A paragraph of special content is the only paragraph of its chunk. */
  predicate SpecialAlone(ps: seq<string>, detect: string -> ContentType) {
    forall j :: 0 <= j < |ps| && IsSpecialContentType(Some(detect(ps[j]))) ==> |ps| == 1
  }

  /**
   * Every paragraph after the first fitted: the text of the buffer before
   * it plus the paragraph are within chunkSize.
   */
  predicate WithinLimit(pc: Piece, chunkSize: int)
    decreases |pc.paras|
  {
    var n := |pc.paras|;
    n <= 1
    || (&& WithinLimit(Piece(pc.section, pc.paras[..n - 1]), chunkSize)
        && |Render(Piece(pc.section, pc.paras[..n - 1]))| + |pc.paras[n - 1]| <= chunkSize)
  }

  /** No paragraph after the first is a heading-like label. */
  predicate NoInnerLabel(ps: seq<string>) {
    forall j :: 1 <= j < |ps| ==> !LabelLike(ps[j])
  }

  /** A list item or table after the first paragraph follows another one. */
  ghost predicate ListsContinue(ps: seq<string>, detect: string -> ContentType)
    decreases |ps|
  {
    var n := |ps|;
    n <= 1 || (ListsContinue(ps[..n - 1], detect) && (ListLike(ps[n - 1], detect) ==> ListLike(ps[n - 2], detect)))
  }

  /** In a list run, the paragraph before a list-like one is list-like too. */
  lemma {:induction false} ListsContinueAt(ps: seq<string>, detect: string -> ContentType, i: nat)
    requires ListsContinue(ps, detect) && i + 1 < |ps| && ListLike(ps[i + 1], detect)
    ensures ListLike(ps[i], detect)
    decreases |ps|
  {
    var init := ps[..|ps| - 1];
    if i + 2 < |ps| {
      ListsContinueAt(init, detect, i);
      assert init[i] == ps[i] && init[i + 1] == ps[i + 1];
    }
  }

  /**
   * What the chunker guarantees about the paragraphs of one buffer: none
   * is blank, a prefix names a non-empty section, special content stands
   * alone, and every paragraph after the first was appended because the
   * size limit allowed it, it was not a heading-like label, and it did
   * not open a list unless the one before it did.
   */
  ghost predicate WellBuilt(pc: Piece, chunkSize: int, detect: string -> ContentType) {
    && SectionNamed(pc) && NoBlank(pc.paras) && SpecialAlone(pc.paras, detect)
    && WithinLimit(pc, chunkSize) && NoInnerLabel(pc.paras) && ListsContinue(pc.paras, detect)
  }

  /** An emitted chunk: well built and holding at least one paragraph. */
  ghost predicate PieceOk(pc: Piece, chunkSize: int, detect: string -> ContentType) {
    |pc.paras| >= 1 && WellBuilt(pc, chunkSize, detect)
  }

  /** All the paragraphs of a list of pieces, in order. */
  function Flatten(pieces: seq<Piece>): seq<string>
  {
    if |pieces| == 0 then [] else Flatten(pieces[..|pieces| - 1]) + Last(pieces).paras
  }

  lemma FlattenSnoc(pieces: seq<Piece>, pc: Piece)
    ensures Flatten(pieces + [pc]) == Flatten(pieces) + pc.paras
  {
    assert (pieces + [pc])[..|pieces|] == pieces;
  }

  /** Appending a paragraph that passed the tests keeps the buffer well built. */
  lemma AppendKeepsWellBuilt(pc: Piece, p: string, chunkSize: int, detect: string -> ContentType)
    requires WellBuilt(pc, chunkSize, detect) && !TrimsToEmpty(p)
    requires NoSpecial(pc.paras, detect)
    requires IsSpecialContentType(Some(detect(p))) ==> pc.paras == []
    requires pc.paras != [] ==>
      && !LabelLike(p) && |Render(pc)| + |p| <= chunkSize
      && (ListLike(p, detect) ==> ListLike(Last(pc.paras), detect))
    ensures WellBuilt(Piece(pc.section, pc.paras + [p]), chunkSize, detect)
  {
    AppendPerParagraph(pc.paras, p, detect);
    AppendWithinLimit(pc, p, chunkSize);
    AppendListsContinue(pc.paras, p, detect);
  }

  lemma AppendPerParagraph(ps: seq<string>, p: string, detect: string -> ContentType)
    requires NoBlank(ps) && !TrimsToEmpty(p)
    requires NoSpecial(ps, detect) && NoInnerLabel(ps)
    requires IsSpecialContentType(Some(detect(p))) ==> ps == []
    requires ps != [] ==> !LabelLike(p)
    ensures NoBlank(ps + [p]) && SpecialAlone(ps + [p], detect) && NoInnerLabel(ps + [p])
  {
    var qs := ps + [p];
    assert forall j :: 0 <= j < |ps| ==> qs[j] == ps[j];
  }

  lemma AppendWithinLimit(pc: Piece, p: string, chunkSize: int)
    requires WithinLimit(pc, chunkSize)
    requires pc.paras != [] ==> |Render(pc)| + |p| <= chunkSize
    ensures WithinLimit(Piece(pc.section, pc.paras + [p]), chunkSize)
  {
    var ps := pc.paras + [p];
    assert ps[..|ps| - 1] == pc.paras;
  }

  /** WithinLimit, paragraph by paragraph: the j-th paragraph fitted after the ones before it. */
  lemma {:induction false} WithinLimitAt(pc: Piece, chunkSize: int, j: nat)
    requires WithinLimit(pc, chunkSize) && 1 <= j < |pc.paras|
    ensures |Render(Piece(pc.section, pc.paras[..j]))| + |pc.paras[j]| <= chunkSize
    decreases |pc.paras|
  {
    var n := |pc.paras|;
    if j < n - 1 {
      var init := Piece(pc.section, pc.paras[..n - 1]);
      WithinLimitAt(init, chunkSize, j);
      assert init.paras[..j] == pc.paras[..j];
    }
  }

  lemma AppendListsContinue(ps: seq<string>, p: string, detect: string -> ContentType)
    requires ListsContinue(ps, detect)
    requires ps != [] && ListLike(p, detect) ==> ListLike(Last(ps), detect)
    ensures ListsContinue(ps + [p], detect)
  {
    assert (ps + [p])[..|ps|] == ps;
  }

  /** No paragraph of special content. */
  predicate NoSpecial(ps: seq<string>, detect: string -> ContentType) {
    forall k :: 0 <= k < |ps| ==> !IsSpecialContentType(Some(detect(ps[k])))
  }

  // ---------------------------------------------------------------------
  // generateSemanticChunks
  // ---------------------------------------------------------------------

  /** The emitted chunks are the texts of well-built, non-empty pieces. */
  ghost predicate Emitted(result: seq<string>, pieces: seq<Piece>, chunkSize: int, detect: string -> ContentType) {
    |pieces| == |result|
    && forall k :: 0 <= k < |result| ==> result[k] == Render(pieces[k]) && PieceOk(pieces[k], chunkSize, detect)
  }

  /** Pieces that each hold a paragraph: no more pieces than paragraphs, and some piece exactly when some paragraph. */
  lemma {:induction false} FlattenCovers(pieces: seq<Piece>)
    requires forall k :: 0 <= k < |pieces| ==> |pieces[k].paras| >= 1
    ensures |pieces| <= |Flatten(pieces)|
    ensures pieces == [] <==> Flatten(pieces) == []
    decreases |pieces|
  {
    if |pieces| > 0 {
      var n := |pieces| - 1;
      FlattenCovers(pieces[..n]);
    }
  }

  /** A rendered piece with a non-blank paragraph is never empty. */
  lemma RenderNonEmpty(pc: Piece)
    requires |pc.paras| >= 1 && NoBlank(pc.paras)
    ensures Render(pc) != ""
  {
    forall j | 0 <= j < |pc.paras|
      ensures pc.paras[j] != ""
    {
      assert !TrimsToEmpty(pc.paras[j]);
    }
    RenderEmpty(pc);
  }

  /**
   * The emitted chunks seen from outside: none is empty, there are no more
   * chunks than paragraphs, and there is a chunk exactly when there is a paragraph.
   */
  lemma EmittedShape(result: seq<string>, pieces: seq<Piece>, chunkSize: int, detect: string -> ContentType)
    requires Emitted(result, pieces, chunkSize, detect)
    ensures forall k :: 0 <= k < |result| ==> result[k] != ""
    ensures |result| <= |Flatten(pieces)|
    ensures result == [] <==> Flatten(pieces) == []
  {
    forall k | 0 <= k < |pieces|
      ensures |pieces[k].paras| >= 1 && NoBlank(pieces[k].paras)
    {
      assert PieceOk(pieces[k], chunkSize, detect);
    }
    FlattenCovers(pieces);
    forall k | 0 <= k < |result|
      ensures result[k] != ""
    {
      RenderNonEmpty(pieces[k]);
    }
  }

  /** A text that ends with a non-blank part is not blank. */
  lemma SuffixNotBlank(x: string, y: string)
    requires !TrimsToEmpty(y)
    ensures !TrimsToEmpty(x + y)
  {
    var k :| 0 <= k < |y| && !IsTrimmable(y[k]);
    assert (x + y)[|x| + k] == y[k];
  }

  /** A rendered piece ends with its last paragraph, so trim() never empties it. */
  lemma RenderNotBlank(pc: Piece)
    requires |pc.paras| >= 1 && NoBlank(pc.paras)
    ensures !TrimsToEmpty(Render(pc))
  {
    var n := |pc.paras|;
    var last := pc.paras[n - 1];
    assert !TrimsToEmpty(last);
    var init := pc.paras[..n - 1];
    match pc.section
    case None =>
      if n > 1 {
        SuffixNotBlank(Join(init, "\n\n") + "\n\n", last);
      }
    case Some(sec) =>
      var body := Separated(init) + "\n\n";
      assert Render(pc) == SectionPrefix(sec) + (body + last);
      assert SectionPrefix(sec) + (body + last) == (SectionPrefix(sec) + body) + last;
      SuffixNotBlank(SectionPrefix(sec) + body, last);
  }

  /**
   * No chunk the chunker emits trims to nothing: each ends with a
   * paragraph that survived the blank skip.
   */
  lemma EmittedNotBlank(result: seq<string>, pieces: seq<Piece>, chunkSize: int, detect: string -> ContentType)
    requires Emitted(result, pieces, chunkSize, detect)
    ensures forall k :: 0 <= k < |result| ==> !TrimsToEmpty(result[k])
  {
    forall k | 0 <= k < |result|
      ensures !TrimsToEmpty(result[k])
    {
      assert PieceOk(pieces[k], chunkSize, detect);
      RenderNotBlank(pieces[k]);
    }
  }

  /**
   * The buffer between two paragraphs: its text renders `cur`, currentSize
   * is its length, it is empty exactly when it holds no paragraph (a prefix
   * is always followed by one), it holds no special content, inList tells
   * whether its last paragraph was a list item or table, and the last type
   * is never a special one.
   */
  ghost predicate Buffer(cur: Piece, currentChunk: string, currentSize: int, lastType: Option<ContentType>,
                         inList: bool, chunkSize: int, detect: string -> ContentType) {
    match cur
    case Piece(section, paras) =>
      && WellBuilt(cur, chunkSize, detect)
      && currentChunk == Render(cur) && currentSize == |currentChunk|
      && (section.Some? ==> paras != [])
      && (currentSize > 0 <==> paras != [])
      && NoSpecial(paras, detect)
      && (paras != [] ==> inList == ListLike(Last(paras), detect))
      && !IsSpecialContentType(lastType)
  }

  lemma EmitPiece(result: seq<string>, pieces: seq<Piece>, pc: Piece, chunkSize: int, detect: string -> ContentType)
    requires Emitted(result, pieces, chunkSize, detect)
    requires WellBuilt(pc, chunkSize, detect) && pc.paras != []
    ensures Emitted(result + [Render(pc)], pieces + [pc], chunkSize, detect)
  {
  }

  lemma EmptyBuffer(lastType: Option<ContentType>, inList: bool, chunkSize: int, detect: string -> ContentType)
    requires !IsSpecialContentType(lastType)
    ensures Buffer(Piece(None, []), "", 0, lastType, inList, chunkSize, detect)
  {
  }


  /** The flush test of generateSemanticChunks for one paragraph (its four rules). */
  predicate ShouldStartNewChunk(currentSize: int, lastType: Option<ContentType>, inList: bool,
                                paragraph: string, t: ContentType, chunkSize: int): (r: bool)
    // an empty buffer is never flushed; a kept buffer has room for the paragraph, which is no label
    ensures r ==> currentSize > 0
    ensures !r && currentSize > 0 ==> currentSize + |paragraph| <= chunkSize && !LabelLike(paragraph)
  {
    || (currentSize > 0 && lastType != Some(t) && (IsSpecialContentType(Some(t)) || IsSpecialContentType(lastType)))
    || (currentSize > 0 && currentSize + |paragraph| > chunkSize)
    || ((t == Table || StartsListItem(paragraph)) && currentSize > 0 && !inList)
    || (LabelLike(paragraph) && currentSize > 0)
  }

  /**
   * The buffer a paragraph is about to be appended to: rendered and
   * measured, holding no special content, and, when it holds paragraphs
   * already, one that the paragraph may join.
   */
  ghost predicate ReadyFor(cur: Piece, currentChunk: string, currentSize: int, paragraph: string,
                           chunkSize: int, detect: string -> ContentType) {
    && WellBuilt(cur, chunkSize, detect)
    && currentChunk == Render(cur) && currentSize == |currentChunk|
    && (currentSize > 0 <==> !(cur.section.None? && cur.paras == []))
    && NoSpecial(cur.paras, detect)
    && (IsSpecialContentType(Some(detect(paragraph))) ==> cur.paras == [])
    && (cur.paras != [] ==>
          && !LabelLike(paragraph) && |Render(cur)| + |paragraph| <= chunkSize
          && (ListLike(paragraph, detect) ==> ListLike(Last(cur.paras), detect)))
  }

  /** Without a flush the paragraph may join the buffer. */
  lemma ReadyWithoutFlush(cur: Piece, currentChunk: string, currentSize: int, lastType: Option<ContentType>,
                          inList: bool, paragraph: string, chunkSize: int, detect: string -> ContentType)
    requires Buffer(cur, currentChunk, currentSize, lastType, inList, chunkSize, detect)
    requires !ShouldStartNewChunk(currentSize, lastType, inList, paragraph, detect(paragraph), chunkSize)
    ensures ReadyFor(cur, currentChunk, currentSize, paragraph, chunkSize, detect)
  {
  }

  /** After a flush the buffer is empty or holds only the section prefix. */
  lemma ReadyAfterFlush(currentSection: string, paragraph: string, chunkSize: int, detect: string -> ContentType)
    ensures currentSection == "" ==> ReadyFor(Piece(None, []), "", 0, paragraph, chunkSize, detect)
    ensures currentSection != "" ==>
      ReadyFor(Piece(Some(currentSection), []), SectionPrefix(currentSection), |currentSection| + 13,
               paragraph, chunkSize, detect)
  {
  }

  /** The text after the append renders the grown piece and is not empty. */
  lemma AppendRender(cur: Piece, currentChunk: string, currentSize: int, paragraph: string)
    requires !TrimsToEmpty(paragraph)
    requires currentChunk == Render(cur) && currentSize == |currentChunk|
    requires currentSize > 0 <==> !(cur.section.None? && cur.paras == [])
    ensures var chunk := (if currentSize > 0 then currentChunk + "\n\n" else currentChunk) + paragraph;
      chunk == Render(Piece(cur.section, cur.paras + [paragraph])) && |chunk| > 0
  {
    RenderAppend(cur, paragraph);
    assert paragraph != "";
  }

  lemma AppendNoSpecial(ps: seq<string>, p: string, detect: string -> ContentType)
    requires NoSpecial(ps, detect) && !IsSpecialContentType(Some(detect(p)))
    ensures NoSpecial(ps + [p], detect)
  {
    var qs := ps + [p];
    assert forall k :: 0 <= k < |ps| ==> qs[k] == ps[k];
  }

  /** Appending the paragraph: the new buffer is well built, and it is a Buffer unless the paragraph is special. */
  lemma AppendReady(cur: Piece, currentChunk: string, currentSize: int, paragraph: string,
                    chunkSize: int, detect: string -> ContentType)
    requires !TrimsToEmpty(paragraph)
    requires ReadyFor(cur, currentChunk, currentSize, paragraph, chunkSize, detect)
    ensures var next := Piece(cur.section, cur.paras + [paragraph]);
      var chunk := (if currentSize > 0 then currentChunk + "\n\n" else currentChunk) + paragraph;
      && WellBuilt(next, chunkSize, detect) && next.paras != []
      && chunk == Render(next)
      && (!IsSpecialContentType(Some(detect(paragraph))) ==>
            Buffer(next, chunk, |chunk|, Some(detect(paragraph)), ListLike(paragraph, detect), chunkSize, detect))
  {
    AppendKeepsWellBuilt(cur, paragraph, chunkSize, detect);
    AppendRender(cur, currentChunk, currentSize, paragraph);
    if !IsSpecialContentType(Some(detect(paragraph))) {
      AppendNoSpecial(cur.paras, paragraph, detect);
    }
    assert Last(cur.paras + [paragraph]) == paragraph;
  }

  lemma AppendNil<T>(a: seq<T>)
    ensures a + [] == a
  {
  }

  lemma SnocBoth<T>(a: seq<T>, b: seq<T>, c: seq<T>, x: T)
    requires a + b == c
    ensures a + (b + [x]) == c + [x]
  {
  }

}
