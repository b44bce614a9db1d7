/**
 * The semantic chunker of DocumentService (generateSemanticChunks): the
 * paragraphs of every page are appended to one text buffer, which is cut
 * into chunks by a heading change, by the size limit, at special content
 * (code and tables), at the start of a list and at heading-like labels.
 *
 * Paragraphs come from PdfUtils.SplitIntoParagraphs. The classifier and
 * the regex search of extractHeadings are parameters; the rules the
 * chunks obey are stated in ChunkRules.
 */
module SemanticChunker {
  import opened JavaStrings
  import opened Dto
  import opened ChunkRules
  import PdfUtils

  /** The paragraph loop of generateSemanticChunks over the paragraphs of one page. */
  method ChunkParagraphs(result: seq<string>, ghost pieces: seq<Piece>, currentChunk: string, currentSize: int,
                         lastDetectedType: Option<ContentType>, inList: bool, currentSection: string,
                         paragraphs: seq<string>, chunkSize: int, detect: string -> ContentType, ghost cur: Piece)
    returns (result': seq<string>, ghost pieces': seq<Piece>, currentChunk': string, currentSize': int,
             lastDetectedType': Option<ContentType>, inList': bool, ghost cur': Piece)
    requires Emitted(result, pieces, chunkSize, detect)
    requires Buffer(cur, currentChunk, currentSize, lastDetectedType, inList, chunkSize, detect)
    ensures Emitted(result', pieces', chunkSize, detect)
    ensures Buffer(cur', currentChunk', currentSize', lastDetectedType', inList', chunkSize, detect)
    ensures Flatten(pieces') + cur'.paras == Flatten(pieces) + cur.paras + NonBlank(paragraphs)
  {
    result', pieces', currentChunk', currentSize', lastDetectedType', inList', cur' :=
      result, pieces, currentChunk, currentSize, lastDetectedType, inList, cur;
    ghost var start := Flatten(pieces) + cur.paras;
    assert paragraphs[..0] == [];
    AppendNil(start);
    for j := 0 to |paragraphs|
      invariant Emitted(result', pieces', chunkSize, detect)
      invariant Buffer(cur', currentChunk', currentSize', lastDetectedType', inList', chunkSize, detect)
      invariant Flatten(pieces') + cur'.paras == start + NonBlank(paragraphs[..j])
    {
      ghost var before := Flatten(pieces') + cur'.paras;
      var paragraph := paragraphs[j];
      if !TrimsToEmpty(paragraph) {
        result', pieces', currentChunk', currentSize', lastDetectedType', inList', cur' :=
          AddParagraph(result', pieces', currentChunk', currentSize', lastDetectedType', inList', currentSection,
                       paragraph, chunkSize, detect, cur');
      }
      ConsumeParagraph(before, Flatten(pieces') + cur'.paras, start, paragraphs, j);
    }
    assert paragraphs[..|paragraphs|] == paragraphs;
  }

  /** The flush at a heading change and after the last page: a non-empty buffer becomes a chunk. */
  method FlushBuffer(result: seq<string>, ghost pieces: seq<Piece>, currentChunk: string, currentSize: int,
                     ghost lastDetectedType: Option<ContentType>, ghost inList: bool, chunkSize: int,
                     detect: string -> ContentType, ghost cur: Piece)
    returns (result': seq<string>, ghost pieces': seq<Piece>)
    requires Emitted(result, pieces, chunkSize, detect)
    requires Buffer(cur, currentChunk, currentSize, lastDetectedType, inList, chunkSize, detect)
    ensures result' == if currentSize > 0 then result + [currentChunk] else result
    ensures Emitted(result', pieces', chunkSize, detect)
    ensures Flatten(pieces') == Flatten(pieces) + cur.paras
  {
    result', pieces' := result, pieces;
    if currentSize > 0 {
      EmitPiece(result, pieces, cur, chunkSize, detect);
      FlattenSnoc(pieces, cur);
      result' := result + [currentChunk];
      pieces' := pieces + [cur];
    } else {
      assert Flatten(pieces) + cur.paras == Flatten(pieces);
    }
  }

  /** A new heading closes the buffer, which starts again empty. */
  method CloseForHeading(result: seq<string>, ghost pieces: seq<Piece>, currentChunk: string, currentSize: int,
                         ghost lastDetectedType: Option<ContentType>, ghost inList: bool, chunkSize: int,
                         detect: string -> ContentType, ghost cur: Piece)
    returns (result': seq<string>, ghost pieces': seq<Piece>, currentChunk': string, currentSize': int,
             ghost cur': Piece)
    requires Emitted(result, pieces, chunkSize, detect)
    requires Buffer(cur, currentChunk, currentSize, lastDetectedType, inList, chunkSize, detect)
    ensures result' == if currentSize > 0 then result + [currentChunk] else result
    ensures currentChunk' == "" && currentSize' == 0
    ensures Emitted(result', pieces', chunkSize, detect)
    ensures Buffer(cur', currentChunk', currentSize', lastDetectedType, inList, chunkSize, detect)
    ensures Flatten(pieces') + cur'.paras == Flatten(pieces) + cur.paras
  {
    result', pieces' := FlushBuffer(result, pieces, currentChunk, currentSize, lastDetectedType, inList,
                                    chunkSize, detect, cur);
    currentChunk' := "";
    currentSize' := 0;
    cur' := Piece(None, []);
    EmptyBuffer(lastDetectedType, inList, chunkSize, detect);
    assert Flatten(pieces') + cur'.paras == Flatten(pieces');
  }

  /**
   * generateSemanticChunks. `pieces` tells the paragraphs of each chunk;
   * `headings` stands for extractHeadings.
   */
  method GenerateSemanticChunks(pageContents: seq<string>, chunkSize: int, detect: string -> ContentType,
                                headings: string -> seq<string>)
    returns (result: seq<string>, ghost pieces: seq<Piece>)
    ensures Emitted(result, pieces, chunkSize, detect)
    ensures Flatten(pieces) == DocumentParagraphs(pageContents)
    ensures forall k :: 0 <= k < |result| ==> result[k] != ""
    ensures |result| <= |DocumentParagraphs(pageContents)|
    ensures result == [] <==> DocumentParagraphs(pageContents) == []
  {
    result := [];
    pieces := [];
    var currentChunk := "";
    var currentSize := 0;
    var lastDetectedType: Option<ContentType> := None;
    var inList := false;
    var currentSection := "";
    ghost var cur := Piece(None, []);
    for i := 0 to |pageContents|
      invariant Emitted(result, pieces, chunkSize, detect)
      invariant Buffer(cur, currentChunk, currentSize, lastDetectedType, inList, chunkSize, detect)
      invariant Flatten(pieces) + cur.paras == DocumentParagraphs(pageContents[..i])
    {
      DocumentParagraphsSnoc(pageContents, i);
      result, pieces, currentChunk, currentSize, lastDetectedType, inList, currentSection, cur :=
        ChunkPage(result, pieces, currentChunk, currentSize, lastDetectedType, inList, currentSection,
                  pageContents[i], chunkSize, detect, headings, cur);
    }
    result, pieces := FlushBuffer(result, pieces, currentChunk, currentSize, lastDetectedType, inList,
                                  chunkSize, detect, cur);
    assert pageContents[..|pageContents|] == pageContents;
    EmittedShape(result, pieces, chunkSize, detect);
  }

  /** One page of generateSemanticChunks: a new first heading closes the chunk, then the page's paragraphs. */
  method ChunkPage(result: seq<string>, ghost pieces: seq<Piece>, currentChunk: string, currentSize: int,
                   lastDetectedType: Option<ContentType>, inList: bool, currentSection: string,
                   pageContent: string, chunkSize: int, detect: string -> ContentType,
                   headings: string -> seq<string>, ghost cur: Piece)
    returns (result': seq<string>, ghost pieces': seq<Piece>, currentChunk': string, currentSize': int,
             lastDetectedType': Option<ContentType>, inList': bool, currentSection': string, ghost cur': Piece)
    requires Emitted(result, pieces, chunkSize, detect)
    requires Buffer(cur, currentChunk, currentSize, lastDetectedType, inList, chunkSize, detect)
    ensures Emitted(result', pieces', chunkSize, detect)
    ensures Buffer(cur', currentChunk', currentSize', lastDetectedType', inList', chunkSize, detect)
    ensures Flatten(pieces') + cur'.paras
         == Flatten(pieces) + cur.paras + NonBlank(PdfUtils.SplitIntoParagraphs(pageContent))
    ensures var hs := headings(pageContent);
      currentSection' == if |hs| > 0 then hs[0] else currentSection
  {
    result', pieces', currentChunk', currentSize', cur' := result, pieces, currentChunk, currentSize, cur;
    currentSection' := currentSection;
    var hs := headings(pageContent);
    if |hs| > 0 && currentSection != hs[0] {
      if currentSize > 0 {
        result', pieces', currentChunk', currentSize', cur' :=
          CloseForHeading(result, pieces, currentChunk, currentSize, lastDetectedType, inList, chunkSize, detect, cur);
      }
      currentSection' := hs[0];
    }
    var paragraphs := PdfUtils.SplitIntoParagraphs(pageContent);
    result', pieces', currentChunk', currentSize', lastDetectedType', inList', cur' :=
      ChunkParagraphs(result', pieces', currentChunk', currentSize', lastDetectedType, inList, currentSection',
                      paragraphs, chunkSize, detect, cur');
  }

  /** The four rules of generateSemanticChunks that start a new chunk before a paragraph, and the new inList. */
  method DecideNewChunk(currentSize: int, lastDetectedType: Option<ContentType>, inList: bool,
                        paragraph: string, currentType: ContentType, chunkSize: int)
    returns (shouldStartNewChunk: bool, inList': bool)
    ensures shouldStartNewChunk == ShouldStartNewChunk(currentSize, lastDetectedType, inList, paragraph, currentType, chunkSize)
    ensures inList' == (currentType == Table || StartsListItem(paragraph))
  {
    var isSpecialContent := IsSpecialContentType(Some(currentType));
    var isTypeChange := lastDetectedType != Some(currentType);
    shouldStartNewChunk := false;
    if currentSize > 0 && isTypeChange && (isSpecialContent || IsSpecialContentType(lastDetectedType)) {
      shouldStartNewChunk := true;
    }
    if currentSize > 0 && currentSize + |paragraph| > chunkSize {
      shouldStartNewChunk := true;
    }
    if currentType == Table || StartsListItem(paragraph) {
      if currentSize > 0 && !inList {
        shouldStartNewChunk := true;
      }
      inList' := true;
    } else {
      inList' := false;
    }
    if LabelLike(paragraph) {
      if currentSize > 0 {
        shouldStartNewChunk := true;
      }
    }
  }

  /**
   * The flush of generateSemanticChunks: the buffer becomes a chunk and
   * is re-seeded with the current section's prefix (none when the section
   * is empty).
   */
  method StartNewChunk(result: seq<string>, ghost pieces: seq<Piece>, currentChunk: string,
                       currentSection: string, paragraph: string, chunkSize: int,
                       detect: string -> ContentType, ghost cur: Piece)
    returns (result': seq<string>, ghost pieces': seq<Piece>, currentChunk': string, currentSize': int,
             ghost cur': Piece)
    requires Emitted(result, pieces, chunkSize, detect)
    requires WellBuilt(cur, chunkSize, detect) && cur.paras != [] && currentChunk == Render(cur)
    ensures result' == result + [currentChunk] && pieces' == pieces + [cur]
    ensures Emitted(result', pieces', chunkSize, detect)
    ensures ReadyFor(cur', currentChunk', currentSize', paragraph, chunkSize, detect)
    ensures cur'.paras == [] && Flatten(pieces') == Flatten(pieces) + cur.paras
  {
    EmitPiece(result, pieces, cur, chunkSize, detect);
    FlattenSnoc(pieces, cur);
    result' := result + [currentChunk];
    pieces' := pieces + [cur];
    currentChunk' := "";
    currentSize' := 0;
    cur' := Piece(None, []);
    if currentSection != "" {
      EmptyAppend(SectionPrefix(currentSection));
      currentChunk' := currentChunk' + SectionPrefix(currentSection);
      currentSize' := currentSize' + |currentSection| + 13;
      cur' := Piece(Some(currentSection), []);
    }
    ReadyAfterFlush(currentSection, paragraph, chunkSize, detect);
  }

  /**
   * The append of generateSemanticChunks: "\n\n" unless the buffer is
   * empty, then the paragraph; special content is flushed at once and
   * clears the last type.
   */
  method AppendParagraph(result: seq<string>, ghost pieces: seq<Piece>, currentChunk: string, currentSize: int,
                         inList: bool, paragraph: string, chunkSize: int, detect: string -> ContentType,
                         ghost cur: Piece)
    returns (result': seq<string>, ghost pieces': seq<Piece>, currentChunk': string, currentSize': int,
             lastDetectedType': Option<ContentType>, ghost cur': Piece)
    requires !TrimsToEmpty(paragraph) && inList == ListLike(paragraph, detect)
    requires Emitted(result, pieces, chunkSize, detect)
    requires ReadyFor(cur, currentChunk, currentSize, paragraph, chunkSize, detect)
    ensures Emitted(result', pieces', chunkSize, detect)
    ensures Buffer(cur', currentChunk', currentSize', lastDetectedType', inList, chunkSize, detect)
    ensures Flatten(pieces') + cur'.paras == Flatten(pieces) + (cur.paras + [paragraph])
    ensures IsSpecialContentType(Some(detect(paragraph))) ==>
              |result'| == |result| + 1 && result'[..|result|] == result && cur'.paras == []
    ensures !IsSpecialContentType(Some(detect(paragraph))) ==>
              result' == result && cur'.paras == cur.paras + [paragraph]
  {
    var currentType := detect(paragraph);
    var isSpecialContent := IsSpecialContentType(Some(currentType));
    AppendReady(cur, currentChunk, currentSize, paragraph, chunkSize, detect);
    currentChunk' := currentChunk;
    currentSize' := currentSize;
    if currentSize' > 0 {
      currentChunk' := currentChunk' + "\n\n";
      currentSize' := currentSize' + 2;
    }
    currentChunk' := currentChunk' + paragraph;
    currentSize' := currentSize' + |paragraph|;
    lastDetectedType' := Some(currentType);
    cur' := Piece(cur.section, cur.paras + [paragraph]);
    result', pieces' := result, pieces;
    if isSpecialContent && currentSize' > 0 {
      EmitPiece(result, pieces, cur', chunkSize, detect);
      FlattenSnoc(pieces, cur');
      AppendNil(Flatten(pieces + [cur']));
      EmptyBuffer(None, inList, chunkSize, detect);
      result' := result + [currentChunk'];
      pieces' := pieces + [cur'];
      currentChunk' := "";
      currentSize' := 0;
      lastDetectedType' := None;
      cur' := Piece(None, []);
    }
  }

  /** The body of the paragraph loop of generateSemanticChunks, for one non-blank paragraph. */
  method AddParagraph(result: seq<string>, ghost pieces: seq<Piece>, currentChunk: string, currentSize: int,
                      lastDetectedType: Option<ContentType>, inList: bool, currentSection: string,
                      paragraph: string, chunkSize: int, detect: string -> ContentType, ghost cur: Piece)
    returns (result': seq<string>, ghost pieces': seq<Piece>, currentChunk': string, currentSize': int,
             lastDetectedType': Option<ContentType>, inList': bool, ghost cur': Piece)
    requires !TrimsToEmpty(paragraph)
    requires Emitted(result, pieces, chunkSize, detect)
    requires Buffer(cur, currentChunk, currentSize, lastDetectedType, inList, chunkSize, detect)
    ensures Emitted(result', pieces', chunkSize, detect)
    ensures Buffer(cur', currentChunk', currentSize', lastDetectedType', inList', chunkSize, detect)
    ensures Flatten(pieces') + cur'.paras == Flatten(pieces) + cur.paras + [paragraph]
    // a firing rule emits the old buffer first; otherwise a plain paragraph only joins the buffer
    ensures ShouldStartNewChunk(currentSize, lastDetectedType, inList, paragraph, detect(paragraph), chunkSize) ==>
              |result'| > |result| && result'[..|result|] == result && result'[|result|] == currentChunk
    ensures !ShouldStartNewChunk(currentSize, lastDetectedType, inList, paragraph, detect(paragraph), chunkSize) &&
            !IsSpecialContentType(Some(detect(paragraph))) ==>
              result' == result && cur'.paras == cur.paras + [paragraph]
  {
    var currentType := detect(paragraph);
    var isSpecialContent := IsSpecialContentType(Some(currentType));
    var shouldStartNewChunk;
    shouldStartNewChunk, inList' := DecideNewChunk(currentSize, lastDetectedType, inList, paragraph, currentType, chunkSize);
    assert inList' == ListLike(paragraph, detect);
    ghost var flushed: seq<Piece>;
    if shouldStartNewChunk {
      result', flushed, currentChunk', currentSize', cur' :=
        StartNewChunk(result, pieces, currentChunk, currentSection, paragraph, chunkSize, detect, cur);
      assert Flatten(flushed) + cur'.paras == Flatten(pieces) + cur.paras;
    } else {
      result', flushed, currentChunk', currentSize', cur' := result, pieces, currentChunk, currentSize, cur;
      ReadyWithoutFlush(cur, currentChunk, currentSize, lastDetectedType, inList, paragraph, chunkSize, detect);
    }
    ghost var before := cur';
    result', pieces', currentChunk', currentSize', lastDetectedType', cur' :=
      AppendParagraph(result', flushed, currentChunk', currentSize', inList', paragraph, chunkSize, detect, cur');
    SnocBoth(Flatten(flushed), before.paras, Flatten(pieces) + cur.paras, paragraph);
  }
}
