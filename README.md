# document-chat: the retrieval and chunking core, in Dafny

This project models the core of a document question-answering service. An
uploaded PDF goes through several steps:

1. Its pages are split into paragraphs.
2. Each paragraph is classified into a content type (table, one of eight code
   types, formula, list, heading, text).
3. The paragraphs are packed into semantic chunks and embedded in batches.
4. The chunks are stored in batch records behind an index record.

A question is answered in these steps:

1. It is expanded.
2. The chunks of the requested documents are ranked. The ranking uses
   embedding similarity, or matched keywords when no chunk is similar enough.
3. Near-duplicate chunks are filtered out with a Jaccard test on normalised
   text.
4. The rest are grouped by type into the prompt context.

The service tracks each upload through a status record whose progress climbs
from 0 to 100 (or ends at -1). It also keeps a count of uploads in flight.

Modules, one per concern of the source:

| module | file | models |
|---|---|---|
| `Dto` | dto.dfy | the DTOs (TextChunkDto, ContentChunkDto, RankedChunkDto, DocumentDto, ContentType), exceptions as values, Java `int` wrap-around |
| `JavaStrings` | java_strings.dfy | the JDK string operations the core relies on: `trim`, `isBlank`, `split` with a regex delimiter (trailing empty strings dropped), `replaceAll` for the patterns used, `toLowerCase`, `contains`, `Integer.toString` |
| `ContentUtils` | content_utils.dfy | `detectContentType` and its detectors, the formatters, `isLikelyTable`, `createSemanticallyCoherentChunks`, `convertToMarkdownTable`, `cleanText` |
| `PdfUtils` | pdf_utils.dfy | `splitIntoParagraphs`, `cleanParagraph`, `extractStructuredContent`, `extractDocumentSections` |
| `ChunkRules`, `SemanticChunker` | chunk_rules.dfy, semantic_chunker.dfy | `generateSemanticChunks`: its flush rules and buffer invariant, and the imperative loop |
| `Embedding` | embedding.dfy | `EmbeddingService`: the blank-text guards, batches of 10, one request per text |
| `Ranking`, `Diversity`, `Context`, `Retrieval` | ranking.dfy, diversity.dfy, context.dfy, retrieval.dfy | keyword and relevance ranking, `selectDiverseChunks` with Jaccard, `prepareEnhancedContext`, `enhanceQuestion`, `fetchAllDocumentChunks`, the `queryDocuments` flow |
| `Storage` | storage.dfy | `StorageService` as a class over record maps and two caches |
| `Ingestion` | ingestion.dfy | `ProcessingStatusDto` as a class, the `DocumentService` bookkeeping, `processDocument` and its embedding loop, removal of documents |

Some parts of the source are not interpreted. They enter the model in one of
three ways:

- **As function parameters:**
  - the regex searches the classifier performs and their match counts;
  - the Java, XML and JSON parsers;
  - the embedding client;
  - the cosine similarity;
  - the heading extractor;
  - the PDF reader's output;
  - the clock and the generated id.
- **As fields of a record of oracles:** `ContentUtils.Matchers`,
  `Retrieval.Services` and `Ingestion.Ingestors`.
- **As given lists:** the PDF reader's pages and tables.

Scores are `real`. The thresholds 0.3 and 0.7 are decided on counts:
`10 * i > 3 * n` for a table-line ratio above 0.3, and `10 * |I| > 7 * |U|`
for a Jaccard similarity above 0.7.

`convertToTextChunkDto` copies only the text, the embedding and the content type
(DocumentService.java:186-192), so every stored chunk has pages 0 to 0
(`Ingestion.ConvertToTextChunkDto`).

processDocument's embedding loop (DocumentService.java:128-157) has two
behaviours worth knowing:

- **The blank skip cannot fire as the code is wired.** The loop skips a chunk
  text that trims to nothing. A skipped text breaks the count flush, and the
  last partial batch is then lost (`Ingestion.BlankTextDropsBatch`). But every
  chunk that generateSemanticChunks emits ends with a paragraph that survived
  its own blank skip. So the skip never fires on that output
  (`ChunkRules.EmittedNotBlank`, `Ingestion.ChunkedTextsKept`). With a client
  that always answers, every chunk is embedded (`Ingestion.ChunkedTextsEmbedded`).
- **A trim/isBlank mismatch fails the upload.** Take a chunk whose prepared text
  `trim()` keeps but `isBlank()` rejects, such as a page text of eleven em
  spaces. One em space alone would be dropped by the `length() > 10` filter of
  splitIntoParagraphs, but eleven pass every filter and come out as one unchanged
  paragraph (`PdfUtils.EmSpacesParagraph`). generateEmbeddings filters it
  out, so `embeddings.get(i)` throws an IndexOutOfBoundsException and the whole
  upload fails (`Ingestion.BlankPreparedFails`, `Ingestion.EmSpaceChunkFails`).

## Model

All source paths are relative to the repository root.

| member | source | states |
|---|---|---|
| Dto.NewDocument | src/main/java/com/cgc/service/llm/service/DocumentService.java:93-97 | the metadata record that processDocument starts from carries the upload's id, file name, page count and stored path, with chunk count 0, processing status 0 and no message |
| Dto.Wrap32 | src/main/java/com/cgc/service/llm/service/DocumentService.java:333 | the value of a Java `int` expression: always in the 32-bit range, equal to the exact value when that fits, and congruent to it modulo 2^32 |
| ContentUtils.IsLikelyTable | src/main/java/com/cgc/service/llm/utils/ContentUtils.java:415-430 | the counting loop answers the table test: some line is a table line, and table lines are more than 30% of all lines of the split |
| ContentUtils.TableLineCount | src/main/java/com/cgc/service/llm/utils/ContentUtils.java:419-428 | never more table lines than lines |
| ContentUtils.AllTableLines | src/main/java/com/cgc/service/llm/utils/ContentUtils.java:415-430 | a text whose every trimmed line has more than two fields is a table |
| ContentUtils.AllTableLinesCount | src/main/java/com/cgc/service/llm/utils/ContentUtils.java:419-428 | when every trimmed line is a table line, every line is counted |
| ContentUtils.BlankLineDilutes | src/main/java/com/cgc/service/llm/utils/ContentUtils.java:420-423 | a blank line counts towards the total but never as a table line |
| ContentUtils.BlankLinesDilute | src/main/java/com/cgc/service/llm/utils/ContentUtils.java:420-423 | any number of blank lines leave the table-line count unchanged |
| ContentUtils.IsOtherCode | src/main/java/com/cgc/service/llm/utils/ContentUtils.java:208-225 | the counting loop answers the "other code" test: more than five lines, and more than 30% of them code-like |
| ContentUtils.CodeLineCount | src/main/java/com/cgc/service/llm/utils/ContentUtils.java:212-223 | never more code lines than lines |
| ContentUtils.ShortTextIsNotOtherCode | src/main/java/com/cgc/service/llm/utils/ContentUtils.java:224 | a text of five lines or fewer is never "other code", however code-like it is |
| ContentUtils.DetectContentType | src/main/java/com/cgc/service/llm/utils/ContentUtils.java:79-112 | the classifier never answers DIAGRAM_DESCRIPTION, IMAGE, HEADER or FOOTER; a likely table is always TABLE; TEXT only for a text without a heading shape |
| ContentUtils.Rules | src/main/java/com/cgc/service/llm/utils/ContentUtils.java:79-112 | the twelve tests of the classifier, in the order of the chain |
| ContentUtils.FirstMatch | src/main/java/com/cgc/service/llm/utils/ContentUtils.java:79-112 | when no rule holds the answer is the default |
| ContentUtils.FirstMatchIsFirst | src/main/java/com/cgc/service/llm/utils/ContentUtils.java:79-112 | first match wins: the default exactly when no rule holds, otherwise the category of a rule that holds with no earlier rule holding |
| ContentUtils.DetectIsFirstMatch | src/main/java/com/cgc/service/llm/utils/ContentUtils.java:79-112 | the if-chain is the first-match reading of the rule list table, XML, JSON, Java, Python, JavaScript, C#, SQL, other code, formula, list, heading, with TEXT as default |
| ContentUtils.DetectedTypeHasReason | src/main/java/com/cgc/service/llm/utils/ContentUtils.java:79-112 | each detected type is justified by its own test, and every test ahead of it fails |
| ContentUtils.FailedParseIsJava | src/main/java/com/cgc/service/llm/utils/ContentUtils.java:114-125 | once the Java pattern is found, every parse that returns a result reporting failure, whatever its problem count, classifies the text as Java |
| ContentUtils.FormatCodeBlock | src/main/java/com/cgc/service/llm/utils/ContentUtils.java:263-293 | a code block opens with three backticks, the language tag and a newline, and closes with a newline and three backticks; its length is tag + collapsed body + 8 |
| ContentUtils.FenceRoundTrip | src/main/java/com/cgc/service/llm/utils/ContentUtils.java:263-293 | unfencing a formatted block gives back code that had no run of three newlines |
| ContentUtils.FencedBodyNoTriple | src/main/java/com/cgc/service/llm/utils/ContentUtils.java:291-292 | whatever the code, the fenced body is the code with runs of 3+ newlines shortened to two, and holds no such run |
| ContentUtils.FormatMathFormula | src/main/java/com/cgc/service/llm/utils/ContentUtils.java:295-301 | a formula containing `$$` or `\begin{` is kept as it is; any other is trimmed and labelled "Math Formula:" |
| ContentUtils.FormatList | src/main/java/com/cgc/service/llm/utils/ContentUtils.java:303-305 | a formatted list has no run of three newlines and neither starts nor ends with a trimmable character |
| ContentUtils.FormatListIdempotent | src/main/java/com/cgc/service/llm/utils/ContentUtils.java:303-305 | formatting a list twice is formatting it once |
| ContentUtils.FormatContentByType | src/main/java/com/cgc/service/llm/utils/ContentUtils.java:241-261 | the code types come back fenced; a list has no run of three newlines; every type other than code, formula and list comes back unchanged |
| ContentUtils.RowLines | src/main/java/com/cgc/service/llm/utils/ContentUtils.java:405-411 | one markdown line per row |
| ContentUtils.MarkdownLines | src/main/java/com/cgc/service/llm/utils/ContentUtils.java:391-413 | an empty table has no lines; otherwise the header row, then the separator for as many columns as the header has, then each later row |
| ContentUtils.MarkdownLinesShape | src/main/java/com/cgc/service/llm/utils/ContentUtils.java:391-413 | a table of n rows gives n + 1 lines; each line starts with `\|` and ends with a newline; the separator line has one ` --- \|` per header cell |
| ContentUtils.MarkdownTextIsLines | src/main/java/com/cgc/service/llm/utils/ContentUtils.java:391-413 | the markdown text is its lines in order |
| ContentUtils.ConvertToMarkdownTable | src/main/java/com/cgc/service/llm/utils/ContentUtils.java:391-413 | the StringBuilder loops produce exactly that text |
| ContentUtils.AppendCells | src/main/java/com/cgc/service/llm/utils/ContentUtils.java:396-398 | the cell loop appends " " + trimmed cell + " \|" for each cell |
| ContentUtils.AppendSeparator | src/main/java/com/cgc/service/llm/utils/ContentUtils.java:400-404 | the separator loop writes one ` --- \|` per header cell |
| ContentUtils.AppendBodyRows | src/main/java/com/cgc/service/llm/utils/ContentUtils.java:405-411 | the row loop appends one line for every row after the header |
| ContentUtils.AppendRow | src/main/java/com/cgc/service/llm/utils/ContentUtils.java:406-410 | one row line is `\|`, its cells, a newline |
| ContentUtils.Carry | src/main/java/com/cgc/service/llm/utils/ContentUtils.java:444-451 | after a flush the last `overlap` characters are carried, only when overlap > 0 and the buffer is longer |
| ContentUtils.PackStep | src/main/java/com/cgc/service/llm/utils/ContentUtils.java:442-463 | a buffer that cannot take the paragraph within targetSize is emitted first; a paragraph of at least targetSize is emitted right after it is appended and leaves the buffer empty |
| ContentUtils.CreateSemanticallyCoherentChunks | src/main/java/com/cgc/service/llm/utils/ContentUtils.java:437-469 | the loop computes the fold of PackStep, with currentSize equal to the buffer's length throughout |
| ContentUtils.PackingKeepsText | src/main/java/com/cgc/service/llm/utils/ContentUtils.java:437-469 | without overlap, joining the chunks with blank lines gives the paragraphs joined with blank lines, so nothing is lost, added or reordered; there is a chunk exactly when there is a paragraph |
| ContentUtils.CleanText | src/main/java/com/cgc/service/llm/utils/ContentUtils.java:483-488 | no regex `\s` character other than the plain space is left; no control character and no U+FFFD remain; no leading or trailing space |
| PdfUtils.StripNumbering | src/main/java/com/cgc/service/llm/utils/PdfUtils.java:42 | removing a leading "N." leaves a suffix of the text |
| PdfUtils.CleanParagraph | src/main/java/com/cgc/service/llm/utils/PdfUtils.java:38-44 | a cleaned paragraph has no regex `\s` character other than the plain space, no removable control character, and no trimmable character at either end |
| PdfUtils.HyphenRepairNeverMatches | src/main/java/com/cgc/service/llm/utils/PdfUtils.java:39-40 | after the first replacement no newline is left, so the hyphen repair and the newline replacement never fire |
| PdfUtils.CleanParagraphSingleSpaced | src/main/java/com/cgc/service/llm/utils/PdfUtils.java:38-44 | a paragraph without control characters comes out with no two adjacent spaces |
| PdfUtils.ControlCharacterLeavesDoubleSpace | src/main/java/com/cgc/service/llm/utils/PdfUtils.java:39-41 | a control character between two spaces survives the collapse and is then removed, leaving two adjacent spaces |
| PdfUtils.PieceParagraph | src/main/java/com/cgc/service/llm/utils/PdfUtils.java:32-34 | a piece contributes at most one paragraph, with the plain space as its only white space and without the bad-path message |
| PdfUtils.ParagraphsClean | src/main/java/com/cgc/service/llm/utils/PdfUtils.java:32-35 | there are no more paragraphs than pieces, and each has the plain space as its only white space and no bad-path message |
| PdfUtils.ParagraphsOfOne | src/main/java/com/cgc/service/llm/utils/PdfUtils.java:32-34 | a piece gives its cleaned text exactly when it passes the blank, length and digits-only filters and the message filter |
| PdfUtils.ParagraphsAppend | src/main/java/com/cgc/service/llm/utils/PdfUtils.java:32-35 | the pipeline keeps the order of the pieces |
| PdfUtils.SplitIntoParagraphs | src/main/java/com/cgc/service/llm/utils/PdfUtils.java:27-36 | the empty text gives no paragraphs; every paragraph has the plain space as its only white space and no bad-path message |
| PdfUtils.EmSpacesParagraph | src/main/java/com/cgc/service/llm/utils/PdfUtils.java:31-35 | a page text of eleven em spaces survives trim, the length, digit and bad-path filters and cleanParagraph, and is one unchanged paragraph |
| PdfUtils.SingleBlock | src/main/java/com/cgc/service/llm/utils/PdfUtils.java:31 | a non-empty text without line breaks is a single piece |
| PdfUtils.NumberOnlyParagraphIsEmpty | src/main/java/com/cgc/service/llm/utils/PdfUtils.java:33-42 | the length filter runs before the numbering is stripped, so ten or more digits and a dot pass it and come out as the empty paragraph |
| PdfUtils.ExtractStructuredContent | src/main/java/com/cgc/service/llm/utils/PdfUtils.java:46-60 | the empty text gives no paragraphs |
| PdfUtils.SectionKeyInjective | src/main/java/com/cgc/service/llm/utils/PdfUtils.java:68 | piece 0 is keyed HEADER and piece i is keyed "SECTION i", so different pieces get different keys |
| PdfUtils.Put | src/main/java/com/cgc/service/llm/utils/PdfUtils.java:71 | LinkedHashMap.put appends a new key at the end and keeps the size for an existing key |
| PdfUtils.SectionsDone | src/main/java/com/cgc/service/llm/utils/PdfUtils.java:62-74 | the finished map holds every non-blank piece under its own key, in split order, and its paragraph lists concatenate to extractStructuredContent |
| PdfUtils.ExtractDocumentSections | src/main/java/com/cgc/service/llm/utils/PdfUtils.java:62-74 | the loop builds that map: entry k holds piece idx[k] of the split under its key, the indices increase, every non-blank piece is taken, and the flattened map is extractStructuredContent of the text |
| ChunkRules.SpecialIsCodeOrTable | src/main/java/com/cgc/service/llm/service/DocumentService.java:304-308 | the special types are exactly TABLE and the code types other than XML and JSON |
| ChunkRules.IsSpecialContentType | src/main/java/com/cgc/service/llm/service/DocumentService.java:304-308 | null, XML, JSON and TEXT are not special; TABLE is |
| ChunkRules.NonBlank | src/main/java/com/cgc/service/llm/service/DocumentService.java:244-246 | the paragraphs the loop does not skip: none trims to nothing |
| ChunkRules.DocumentParagraphs | src/main/java/com/cgc/service/llm/service/DocumentService.java:231-246 | every paragraph the chunker appends, page by page and paragraph by paragraph; none is blank |
| ChunkRules.SectionPrefix | src/main/java/com/cgc/service/llm/service/DocumentService.java:277-278 | the "[Section: …]" prefix is 13 characters longer than the section name |
| ChunkRules.RenderAppend | src/main/java/com/cgc/service/llm/service/DocumentService.java:281-286 | appending a paragraph writes "\n\n" first unless the buffer is empty, including after a re-seeded prefix, which then gets a second blank line |
| ChunkRules.RenderEmpty | src/main/java/com/cgc/service/llm/service/DocumentService.java:272-286 | a buffer is empty exactly when it holds no paragraph and no prefix |
| ChunkRules.WithinLimitAt | src/main/java/com/cgc/service/llm/service/DocumentService.java:254-256 | every paragraph after the first fitted: the text before it plus the paragraph are at most chunkSize |
| ChunkRules.ListsContinueAt | src/main/java/com/cgc/service/llm/service/DocumentService.java:257-265 | in a chunk, a list item or table after the first paragraph follows another list item or table |
| ChunkRules.EmitPiece | src/main/java/com/cgc/service/llm/service/DocumentService.java:272-273 | emitting a well-built non-empty buffer keeps the emitted chunks well built |
| ChunkRules.EmittedShape | src/main/java/com/cgc/service/llm/service/DocumentService.java:272-300 | emitted chunks are never empty, are no more than their paragraphs, and exist exactly when a paragraph does |
| ChunkRules.RenderNotBlank | src/main/java/com/cgc/service/llm/service/DocumentService.java:272-300 | a rendered piece ends with its last paragraph, so trim() never empties it |
| ChunkRules.EmittedNotBlank | src/main/java/com/cgc/service/llm/service/DocumentService.java:272-300 | no emitted chunk trims to nothing |
| ChunkRules.FlattenCovers | src/main/java/com/cgc/service/llm/service/DocumentService.java:272-300 | pieces that each hold a paragraph are no more than their paragraphs, and exist exactly when a paragraph does |
| ChunkRules.RenderNonEmpty | src/main/java/com/cgc/service/llm/service/DocumentService.java:281-286 | a buffer holding a non-blank paragraph renders as non-empty text |
| ChunkRules.ReadyAfterFlush | src/main/java/com/cgc/service/llm/service/DocumentService.java:272-280 | after a flush the buffer is empty, or holds only the section prefix with currentSize its length |
| SemanticChunker.DecideNewChunk | src/main/java/com/cgc/service/llm/service/DocumentService.java:247-271 | the four flush rules (type change at special content, size limit, start of a list run, label-like paragraph) and the new inList |
| ChunkRules.ShouldStartNewChunk | src/main/java/com/cgc/service/llm/service/DocumentService.java:247-271 | a flush needs a non-empty buffer; a non-empty buffer kept open has room for the paragraph, which is not label-like |
| SemanticChunker.StartNewChunk | src/main/java/com/cgc/service/llm/service/DocumentService.java:272-280 | the buffer becomes a chunk and is re-seeded with the section prefix; the emitted chunks stay well built and no paragraph is lost |
| SemanticChunker.AppendParagraph | src/main/java/com/cgc/service/llm/service/DocumentService.java:281-295 | the paragraph comes after every earlier paragraph, the emitted chunks stay well built and the buffer invariant holds again; special content emits exactly one chunk and empties the buffer, any other paragraph emits nothing and joins the buffer |
| SemanticChunker.AddParagraph | src/main/java/com/cgc/service/llm/service/DocumentService.java:247-295 | one paragraph: emitted chunks well built, buffer invariant kept, the paragraph appended exactly once after all earlier ones; when a flush rule fires the old buffer is the next chunk, and when none fires a non-special paragraph emits nothing and joins the buffer |
| SemanticChunker.ChunkParagraphs | src/main/java/com/cgc/service/llm/service/DocumentService.java:243-296 | the paragraph loop appends every non-blank paragraph of the page once, in order, and keeps the buffer invariant |
| SemanticChunker.CloseForHeading | src/main/java/com/cgc/service/llm/service/DocumentService.java:233-240 | a heading change emits a non-empty buffer and restarts it empty, without the section prefix |
| SemanticChunker.ChunkPage | src/main/java/com/cgc/service/llm/service/DocumentService.java:231-296 | one page: the heading flush, then its paragraphs, each appended once and in order; the current section becomes the page's first heading when it has one |
| SemanticChunker.FlushBuffer | src/main/java/com/cgc/service/llm/service/DocumentService.java:298-300 | a non-empty buffer is emitted at the end; an empty one is not |
| SemanticChunker.GenerateSemanticChunks | src/main/java/com/cgc/service/llm/service/DocumentService.java:221-302 | no chunk is empty; there are no more chunks than non-blank paragraphs, and a chunk exactly when there is one; every chunk is the text of a well-built piece holding at least one paragraph, and the pieces hold exactly the non-blank paragraphs of all pages, in order |
| Embedding.GenerateEmbedding | src/main/java/com/cgc/service/llm/service/EmbeddingService.java:55-67 | a blank text is refused with "Text cannot be null or blank" before the client is asked; a failed request is "Failed to generate embedding"; it succeeds exactly when the text is not blank and the client answers |
| Embedding.ValidTexts | src/main/java/com/cgc/service/llm/service/EmbeddingService.java:73 | the filtered list holds no blank text and every non-blank input, and nothing else |
| Embedding.GroupSizes | src/main/java/com/cgc/service/llm/service/EmbeddingService.java:87-90 | every group holds between 1 and 10 texts |
| Embedding.GroupsFlatten | src/main/java/com/cgc/service/llm/service/EmbeddingService.java:87-90 | the groups, put back together, are the texts in order |
| Embedding.SingleBatch | src/main/java/com/cgc/service/llm/service/EmbeddingService.java:98-108 | a batch succeeds exactly when the client answers it; a failure is "Failed to generate batch embeddings" |
| Embedding.EmbedEach | src/main/java/com/cgc/service/llm/service/EmbeddingService.java:110-114 | per-text mode gives one vector per text, each what generateEmbedding gives for that text, in input order; a failure surfaces as a CompletionException |
| Embedding.ProcessBatchEmbeddings | src/main/java/com/cgc/service/llm/service/EmbeddingService.java:84-96 | more than ten texts go out in groups of ten; up to ten go out as one request |
| Embedding.ProcessInGroups | src/main/java/com/cgc/service/llm/service/EmbeddingService.java:86-92 | the offset loop concatenates the groups' vectors in group order, with the first failure as the answer |
| Embedding.EmbedGroups | src/main/java/com/cgc/service/llm/service/EmbeddingService.java:86-92 | a failure of the grouped requests is always the batch exception |
| Embedding.OneGroup | src/main/java/com/cgc/service/llm/service/EmbeddingService.java:93-95 | up to ten texts are a single request |
| Embedding.GenerateEmbeddings | src/main/java/com/cgc/service/llm/service/EmbeddingService.java:69-82 | no texts or only blank ones give no vectors; otherwise the configured mode runs on the non-blank texts |
| Embedding.Embeddings | src/main/java/com/cgc/service/llm/service/EmbeddingService.java:69-82 | no non-blank text gives no vectors; per text, one vector per non-blank text or a CompletionException; in batch mode a failure is the batch exception |
| Embedding.BlankTextsNeedNoRequest | src/main/java/com/cgc/service/llm/service/EmbeddingService.java:70-76 | a list of blank texts gets no vectors in either mode |
| Embedding.ModesAgree | src/main/java/com/cgc/service/llm/service/EmbeddingService.java:77-114 | with a client whose batch answers agree with its single answers, both modes succeed for the same texts and give the same vectors |
| Embedding.GroupsOnePerText | src/main/java/com/cgc/service/llm/service/EmbeddingService.java:84-96 | with a client that gives one vector per prompt, batch mode yields one vector per text |
| Embedding.ValidAll | src/main/java/com/cgc/service/llm/service/EmbeddingService.java:73 | a list with no blank text passes the isBlank filter whole |
| Embedding.EachAnswers | src/main/java/com/cgc/service/llm/service/EmbeddingService.java:110-114 | against a client that answers every single request, one task per non-blank text succeeds |
| Embedding.AnswersAll | src/main/java/com/cgc/service/llm/service/EmbeddingService.java:69-82 | against a client that always answers, either mode gives one vector per text for every list of non-blank texts |
| Ranking.ExtractKeywords | src/main/java/com/cgc/service/llm/service/DocumentService.java:487-493 | no keyword is a stop word or shorter than two characters |
| Ranking.KeywordsAreWords | src/main/java/com/cgc/service/llm/service/DocumentService.java:491 | every keyword occurs in the text and consists of word characters only |
| Ranking.WordsAreKeywords | src/main/java/com/cgc/service/llm/service/DocumentService.java:491-492 | every maximal word of the text that is long enough and not a stop word is a keyword |
| Ranking.KeywordScoreBounds | src/main/java/com/cgc/service/llm/service/DocumentService.java:479-481 | the keyword score lies in [0, 1]; it is positive exactly when the lower-cased passage contains a keyword, and 1 exactly when it contains them all |
| Ranking.KeepMembers | src/main/java/com/cgc/service/llm/service/DocumentService.java:483 | the filter keeps exactly the entries whose score passes |
| Ranking.SortPermutes | src/main/java/com/cgc/service/llm/service/DocumentService.java:484 | the sort is a permutation of its input |
| Ranking.SortDescending | src/main/java/com/cgc/service/llm/service/DocumentService.java:484 | the sort returns its input in descending order of score |
| Ranking.SortStable | src/main/java/com/cgc/service/llm/service/DocumentService.java:484 | the sort is stable: entries with equal scores keep their order |
| Ranking.Take | src/main/java/com/cgc/service/llm/service/DocumentService.java:484 | limit(n) keeps the first min(n, size) entries |
| Ranking.Pipeline | src/main/java/com/cgc/service/llm/service/DocumentService.java:483-484 | a negative limit makes Stream.limit throw IllegalArgumentException, and only a negative limit does |
| Ranking.KeepNone | src/main/java/com/cgc/service/llm/service/DocumentService.java:483 | when no entry passes, nothing is kept |
| Ranking.TopIsBest | src/main/java/com/cgc/service/llm/service/DocumentService.java:483-484 | no passing entry left out scores higher than one taken |
| Ranking.TopSorted | src/main/java/com/cgc/service/llm/service/DocumentService.java:484 | the first n after sorting are in descending order and come from the input |
| Ranking.TopTies | src/main/java/com/cgc/service/llm/service/DocumentService.java:484 | the entries of any one score that are taken are the first ones of that score in input order |
| Ranking.PipelineTopK | src/main/java/com/cgc/service/llm/service/DocumentService.java:483-484 | filter, sort and limit give min(limit, passing) entries, all passing, descending, none left out that beats one taken, with ties in input order |
| Ranking.KeywordScores | src/main/java/com/cgc/service/llm/service/DocumentService.java:478-482 | each passage is paired with its keyword score, in order |
| Ranking.KeywordResults | src/main/java/com/cgc/service/llm/service/DocumentService.java:476-485 | every keyword-ranked passage contains a keyword of the question and carries its keyword score |
| Ranking.RankChunksByKeywords | src/main/java/com/cgc/service/llm/service/DocumentService.java:476-485 | a negative limit fails; otherwise at most maxResults passages, best first, each one of the given passages with a positive keyword score |
| Ranking.NoKeywordsNoResults | src/main/java/com/cgc/service/llm/service/DocumentService.java:476-485 | a question without keywords ranks nothing |
| Ranking.Cosine | src/main/java/com/cgc/service/llm/service/DocumentService.java:570-574 | a missing vector, vectors of different lengths, or empty vectors score 0 |
| Ranking.Similarities | src/main/java/com/cgc/service/llm/service/DocumentService.java:520-522 | each passage is paired with its similarity to the question, in order |
| Ranking.MissingEmbeddingRanked | src/main/java/com/cgc/service/llm/service/DocumentService.java:518-525 | a passage stored without an embedding scores 0, so it survives the threshold filter exactly when the threshold is at most 0 |
| Ranking.RankChunksByRelevance | src/main/java/com/cgc/service/llm/service/DocumentService.java:518-525 | a negative limit fails; otherwise at most maxResults passages, best first, each one of the given passages with a similarity of at least the threshold |
| Diversity.KeepNormalChars | src/main/java/com/cgc/service/llm/service/DocumentService.java:554 | only [a-z0-9 ] survive the filter |
| Diversity.KeepNormalIdentity | src/main/java/com/cgc/service/llm/service/DocumentService.java:554 | characters already normal are kept unchanged |
| Diversity.Normalize | src/main/java/com/cgc/service/llm/service/DocumentService.java:553-555 | a normalised text holds only [a-z0-9 ] and neither starts nor ends with a space |
| Diversity.NormalizeFixed | src/main/java/com/cgc/service/llm/service/DocumentService.java:553-555 | a text made only of lower-case ASCII letters and digits is its own normalisation |
| Diversity.JaccardFacts | src/main/java/com/cgc/service/llm/service/DocumentService.java:557-568 | Jaccard is symmetric and lies in [0, 1]; the count test 10·\|I\| > 7·\|U\| agrees with Jaccard > 0.7 |
| Diversity.Jaccard | src/main/java/com/cgc/service/llm/service/DocumentService.java:557-568 | the similarity lies in [0, 1], is 1 exactly for equal non-empty word sets, and is 0 for word sets with no common word |
| Diversity.RatioAbove | src/main/java/com/cgc/service/llm/service/DocumentService.java:567 | an intersection/union ratio above 0.7 is exactly 10·i > 7·u |
| Diversity.NormalWordSet | src/main/java/com/cgc/service/llm/service/DocumentService.java:558-566 | a normalised text has at least one word, so the empty-union guard never fires inside selectDiverseChunks |
| Diversity.SelfTooSimilar | src/main/java/com/cgc/service/llm/service/DocumentService.java:540 | a normalised text has Jaccard 1 with itself, so an exact duplicate is always rejected |
| Diversity.IsDiverse | src/main/java/com/cgc/service/llm/service/DocumentService.java:538-544 | the inner loop answers true exactly when no seen text is similar to the candidate |
| Diversity.SeenMembers | src/main/java/com/cgc/service/llm/service/DocumentService.java:532-547 | a normalised text is in the seen set exactly when it is the text of some pick |
| Diversity.GreedyStep | src/main/java/com/cgc/service/llm/service/DocumentService.java:535-548 | one candidate before the limit: it is picked exactly when it is not similar to a seen text, and then its text joins the seen set |
| Diversity.GreedySelect | src/main/java/com/cgc/service/llm/service/DocumentService.java:531-550 | the loop returns the passages at the greedy picks, in order |
| Diversity.SelectDiverseChunks | src/main/java/com/cgc/service/llm/service/DocumentService.java:527-551 | the method computes the selection described by SelectionShape |
| Diversity.PicksIncreasing | src/main/java/com/cgc/service/llm/service/DocumentService.java:535-548 | picks are strictly increasing positions: ranking order is kept |
| Diversity.PicksInRange | src/main/java/com/cgc/service/llm/service/DocumentService.java:535-548 | every pick is a position already scanned |
| Diversity.PicksSettled | src/main/java/com/cgc/service/llm/service/DocumentService.java:535 | once maxResults passages are picked, scanning further picks nothing |
| Diversity.PicksApart | src/main/java/com/cgc/service/llm/service/DocumentService.java:539-547 | the picks are pairwise not similar |
| Diversity.PicksBounded | src/main/java/com/cgc/service/llm/service/DocumentService.java:535 | with maxResults ≥ 1 at most maxResults passages are picked |
| Diversity.PicksDiverse | src/main/java/com/cgc/service/llm/service/DocumentService.java:539-547 | every pick is not similar to any earlier pick |
| Diversity.SkippedForAReason | src/main/java/com/cgc/service/llm/service/DocumentService.java:535-548 | a passage not picked came when maxResults were already picked or was similar to an earlier pick |
| Diversity.SelectionShape | src/main/java/com/cgc/service/llm/service/DocumentService.java:527-551 | all passages unchanged when they fit; otherwise the top passage first, an order-preserving subsequence, pairwise Jaccard ≤ 0.7, at most maxResults when maxResults ≥ 1 |
| Diversity.Selection | src/main/java/com/cgc/service/llm/service/DocumentService.java:527-551 | fails (rankedChunks.get(0)) exactly for no ranked passage with a negative limit; otherwise the top passage comes first, and with maxResults ≥ 1 at most maxResults are kept |
| Diversity.SelectionSkipsForAReason | src/main/java/com/cgc/service/llm/service/DocumentService.java:535-548 | a ranked passage left out came after maxResults were chosen or has Jaccard above 0.7 with an earlier chosen one |
| Diversity.NonPositiveLimitKeepsTop | src/main/java/com/cgc/service/llm/service/DocumentService.java:528-535 | with maxResults ≤ 0 and some passage, the top passage alone comes back, more than asked for |
| Context.OfTypeMembers | src/main/java/com/cgc/service/llm/service/DocumentService.java:609-610 | a group holds exactly the passages of its type, a passage without a type counting as TEXT |
| Context.GroupByType | src/main/java/com/cgc/service/llm/service/DocumentService.java:609-610 | groupingBy builds one list per type that occurs, holding that type's passages in order |
| Context.AppendSection | src/main/java/com/cgc/service/llm/service/DocumentService.java:614-616 | the loop appends each passage's text and a blank line |
| Context.AppendGroup | src/main/java/com/cgc/service/llm/service/DocumentService.java:621-626 | a containsKey block adds the group's heading and passages when the type occurs, nothing otherwise |
| Context.PrepareEnhancedContext | src/main/java/com/cgc/service/llm/service/DocumentService.java:608-635 | the context is the TABLE section, the six code sections and the TEXT section, in that order |
| Context.AppendCodeGroups | src/main/java/com/cgc/service/llm/service/DocumentService.java:618-627 | after the Tables section, the loop appends the sections of the six code types in the listed order |
| Context.KeptTextAppears | src/main/java/com/cgc/service/llm/service/DocumentService.java:608-635 | every selected passage of a table, code or text type appears in the context followed by a blank line |
| Context.ContextText | src/main/java/com/cgc/service/llm/service/DocumentService.java:608-635 | the context is empty exactly when no selected passage is a table, one of the six code types or text; with a table among the passages it opens with the Tables heading |
| Context.SectionEmpty | src/main/java/com/cgc/service/llm/service/DocumentService.java:612-633 | a section is empty exactly when no passage has its type |
| Context.BodyHas | src/main/java/com/cgc/service/llm/service/DocumentService.java:614-616 | every passage of a group appears in its section, followed by a blank line |
| Context.DroppedTypeIgnored | src/main/java/com/cgc/service/llm/service/DocumentService.java:608-635 | passages of list, heading, formula, XML, JSON and the other types never reach the context |
| Retrieval.EnhanceQuestion | src/main/java/com/cgc/service/llm/service/DocumentService.java:465-474 | the enhanced question ends with a space and the question as asked |
| Retrieval.PlainQuestion | src/main/java/com/cgc/service/llm/service/DocumentService.java:465-474 | a question without any of the six trigger phrases is only lower-cased and repeated |
| Retrieval.SalaryExpanded | src/main/java/com/cgc/service/llm/service/DocumentService.java:472 | a "salary" left after the first five replacements is always expanded |
| Retrieval.FetchAllAppend | src/main/java/com/cgc/service/llm/service/DocumentService.java:495-512 | fetching a list of ids is fetching its parts one after the other |
| Retrieval.FetchAll | src/main/java/com/cgc/service/llm/service/DocumentService.java:495-512 | a passage is fetched exactly when some requested id loads successfully with it; a failing id contributes nothing |
| Retrieval.Threshold | src/main/java/com/cgc/service/llm/service/DocumentService.java:332 | the embedding threshold is the smaller of minRelevanceScore and 0.3f |
| Retrieval.NoChunksFails | src/main/java/com/cgc/service/llm/service/DocumentService.java:326-329 | when no requested document has passages, the query fails with "No valid documents found for the provided IDs" before any embedding |
| Retrieval.RankedFacts | src/main/java/com/cgc/service/llm/service/DocumentService.java:331-340 | the ranked list has at most 3·maxResults (as a Java int) entries, best first, all requested passages, either all at least the threshold or all with a positive keyword score |
| Retrieval.SelectionFrom | src/main/java/com/cgc/service/llm/service/DocumentService.java:346 | the selected passages are passages of the ranked list |
| Ranking.PipelineFrom | src/main/java/com/cgc/service/llm/service/DocumentService.java:483-484 | a successful ranking has a non-negative limit, at most that many entries, descending, each from the input and passing the filter |
| Retrieval.RelevanceFacts | src/main/java/com/cgc/service/llm/service/DocumentService.java:332-335 | the embedding pass ranks at most 3·maxResults (as a Java int) requested passages, best first, each at least the threshold |
| Retrieval.KeywordFacts | src/main/java/com/cgc/service/llm/service/DocumentService.java:337-340 | the keyword pass ranks requested passages best first, each with a positive keyword score |
| Retrieval.QueryOutcome | src/main/java/com/cgc/service/llm/service/DocumentService.java:331-346 | the embedding pass decides when it ranks something; only when it is empty does the keyword pass run on the original question; both empty give the fixed reply with confidence 0 |
| Retrieval.QueryDocuments | src/main/java/com/cgc/service/llm/service/DocumentService.java:321-354 | no passage fails with the no-documents ApplicationException; an answer needs some passage and an embedding of the enhanced question; the only fixed answer is the not-enough reply with confidence 0 |
| Retrieval.PromptedAnswer | src/main/java/com/cgc/service/llm/service/DocumentService.java:346-353 | a prompted answer holds the diverse selection of the ranked list, its context and the mean ranked score; every passage comes from a requested document; at most maxResults passages when maxResults ≥ 1 |
| Retrieval.NegativeLimitFails | src/main/java/com/cgc/service/llm/service/DocumentService.java:333-335 | when 3·maxResults is negative as a Java int, the query fails with IllegalArgumentException naming that limit |
| Retrieval.LimitOverflows | src/main/java/com/cgc/service/llm/service/DocumentService.java:333 | maxResults = 715827883 is a valid int whose triple overflows to a negative limit |
| Storage.BatchNameInjective | src/main/java/com/cgc/service/llm/service/StorageService.java:87 | batch records of different documents or offsets have different names |
| Storage.IndexNotBatch | src/main/java/com/cgc/service/llm/service/StorageService.java:87-93 | an index record is never a batch record |
| Storage.NamesApart | src/main/java/com/cgc/service/llm/service/StorageService.java:87-93 | the chunk records of two different documents never share a name |
| Storage.LoadFrom | src/main/java/com/cgc/service/llm/service/StorageService.java:134-157 | a failed load is "Failed to load document chunks for ID: " + id |
| Storage.RoundTrip | src/main/java/com/cgc/service/llm/service/StorageService.java:84-149 | load after store gives back the stored list in order; stale batches of a longer earlier list are ignored |
| Storage.IndexWrittenLast | src/main/java/com/cgc/service/llm/service/StorageService.java:84-97 | the batch writes are batch names only; the index is not among them |
| Storage.StoreKeepsOthers | src/main/java/com/cgc/service/llm/service/StorageService.java:79-106 | storing one document's passages does not change what any other document loads |
| Storage.PrefixDeletionLoses | src/main/java/com/cgc/service/llm/service/StorageService.java:243 | deleting by bare prefix removes the index of every document whose id starts with the deleted id |
| Storage.PrefixCollision | src/main/java/com/cgc/service/llm/service/StorageService.java:243 | deleting "doc1" makes "doc10" fail to load |
| Storage.DeleteKeepsUnrelated | src/main/java/com/cgc/service/llm/service/StorageService.java:238-256 | a document `other` loads as before when `other_` does not start with the deleted id and the deleted id does not start with `other_` |
| Storage.IdOf | src/main/java/com/cgc/service/llm/service/StorageService.java:167-168 | stripping the 5-character suffix recovers the id whose metadata record it is |
| Storage.BatchKeyFacts | src/main/java/com/cgc/service/llm/service/StorageService.java:87-93 | batch names of one document are injective in the offset and never the index name |
| Storage.IndexNameInjective | src/main/java/com/cgc/service/llm/service/StorageService.java:93 | different documents have different index names |
| Storage.MetaNamesOfMembers | src/main/java/com/cgc/service/llm/service/StorageService.java:260-266 | a name is listed exactly when it is the metadata name of a listed id |
| Storage.StorageService.constructor | src/main/java/com/cgc/service/llm/service/StorageService.java:46-53 | an empty store with the given base path, cache switch and batch size; the caches are coherent |
| Storage.StorageService.StoreFile | src/main/java/com/cgc/service/llm/service/StorageService.java:55-65 | a successful copy adds the file path under files/ and returns it; a failed one is "Failed to store file" and adds nothing; no record or cache changes |
| Storage.FilePathInjective | src/main/java/com/cgc/service/llm/service/StorageService.java:56 | two uploads go to the same file exactly when their original names are equal |
| Storage.StorageService.StoreDocumentChunks | src/main/java/com/cgc/service/llm/service/StorageService.java:79-106 | the batch records at offsets 0, B, 2B, … and then the index are written in that order; the list is cached when caching is on; nothing else changes |
| Storage.StorageService.StoreCoherent | src/main/java/com/cgc/service/llm/service/StorageService.java:98-100 | caching the stored list keeps every cached list equal to what the records give |
| Storage.StorageService.WriteBatches | src/main/java/com/cgc/service/llm/service/StorageService.java:84-92 | the offset loop writes one record per batch, in offset order |
| Storage.StorageService.LoadDocumentChunks | src/main/java/com/cgc/service/llm/service/StorageService.java:126-158 | a cache hit returns the cached list without reading; a miss reads the records and caches a loaded list when caching is on; with coherent caches the answer is what the records give |
| Storage.StorageService.ReadChunkBatches | src/main/java/com/cgc/service/llm/service/StorageService.java:141-149 | the read loop appends the batches at offsets below the count, in order |
| Storage.StorageService.StoreDocumentMetadata | src/main/java/com/cgc/service/llm/service/StorageService.java:108-123 | the `<id>.meta` record is written and cached when caching is on; a later getDocumentMetadata returns the stored document |
| Storage.StorageService.GetDocumentMetadata | src/main/java/com/cgc/service/llm/service/StorageService.java:176-197 | the cached record, else the stored `.meta` record, else none; a record found is cached when caching is on |
| Storage.StorageService.GetAllDocumentIds | src/main/java/com/cgc/service/llm/service/StorageService.java:160-174 | the ids of the records ending in ".meta", each once |
| Storage.StorageService.DeleteChunkFiles | src/main/java/com/cgc/service/llm/service/StorageService.java:238-256 | every chunk record whose name starts with the id is deleted, and nothing else |
| Storage.StorageService.DeleteDocument | src/main/java/com/cgc/service/llm/service/StorageService.java:199-224 | false with nothing changed when there is no metadata; otherwise true, with the stored file, the metadata record, every chunk record starting with the id and both cache entries removed |
| Storage.StorageService.CleanupFilesDirectory | src/main/java/com/cgc/service/llm/service/StorageService.java:279-298 | every uploaded file is deleted |
| Storage.StorageService.DeleteAllDocuments | src/main/java/com/cgc/service/llm/service/StorageService.java:258-277 | the count is the number of metadata records; only non-".meta" records remain in the metadata directory; a chunk record is kept exactly when it was there and its name starts with no listed id; caches and files directory are emptied |
| Storage.StorageService.DeletedAll | src/main/java/com/cgc/service/llm/service/StorageService.java:260-266 | after deleting each listed id, a chunk record remains exactly when it was there before and its name starts with none of the listed ids |
| Storage.StorageService.EvictChunks | src/main/java/com/cgc/service/llm/service/StorageService.java:46-53 | one chunk-cache entry is dropped; records are untouched and the caches stay coherent |
| Storage.StorageService.EvictMetadata | src/main/java/com/cgc/service/llm/service/StorageService.java:46-53 | one metadata-cache entry is dropped; records are untouched and the caches stay coherent |
| Ingestion.ProcessingStatus.constructor | src/main/java/com/cgc/service/llm/dto/ProcessingStatusDto.java:19-24 | file name, progress and message are stored and lastUpdated is stamped with the clock |
| Ingestion.ProcessingStatus.Update | src/main/java/com/cgc/service/llm/dto/ProcessingStatusDto.java:26-30 | progress and message are overwritten with exactly the given values, with no range check, and lastUpdated refreshed; the file name is a constant |
| Ingestion.StateOf | src/main/java/com/cgc/service/llm/service/DocumentService.java:703-709 | failed exactly below 0, completed exactly from 100, processing exactly in between |
| Ingestion.NonDecreasingSnoc | src/main/java/com/cgc/service/llm/dto/ProcessingStatusDto.java:26-30 | appending a value at least the last keeps the history non-decreasing |
| Ingestion.DocumentService.UpdateProcessingStatus | src/main/java/com/cgc/service/llm/service/DocumentService.java:720-726 | the status of a known id is updated; an unknown id changes nothing |
| Ingestion.DocumentService.GetProcessingStatus | src/main/java/com/cgc/service/llm/service/DocumentService.java:693-718 | the in-flight count and map size as they are; the documents reported are exactly those in progress or updated within the last hour |
| Ingestion.DocumentService.StatusCounts | src/main/java/com/cgc/service/llm/service/DocumentService.java:702-716 | every reported status is counted in exactly one group, and no more are reported than the map holds |
| Ingestion.DocumentService.InProgressReported | src/main/java/com/cgc/service/llm/service/DocumentService.java:697-701 | a status between 0 and 99 is reported however long ago it was updated |
| Ingestion.QuotMonotone | src/main/java/com/cgc/service/llm/service/DocumentService.java:114-116 | a larger share of pages or chunks never gives a smaller percentage |
| Ingestion.QuotAtMost | src/main/java/com/cgc/service/llm/service/DocumentService.java:114-116 | x ≤ k·n gives a quotient of at most k, so the percentages never pass their caps |
| Ingestion.QuotExact | src/main/java/com/cgc/service/llm/service/DocumentService.java:114-116 | k·n divided by n is exactly k |
| Ingestion.EmbeddedProgressRises | src/main/java/com/cgc/service/llm/service/DocumentService.java:153-154 | the embedding progress never falls as chunks are made and stays in [75, 95] |
| Ingestion.BatchChunks | src/main/java/com/cgc/service/llm/service/DocumentService.java:143-149 | the inner loop succeeds exactly when there are at least as many embeddings as queued passages (otherwise embeddings.get throws IndexOutOfBounds) and then yields one chunk per passage, each over pages 1 to pageCount |
| Ingestion.BatchChunksAt | src/main/java/com/cgc/service/llm/service/DocumentService.java:143-149 | each chunk of a flush carries its passage, its own embedding, pages 1..pageCount and the type recorded for its content |
| Ingestion.FlushFacts | src/main/java/com/cgc/service/llm/service/DocumentService.java:141-149 | against a healthy service a flush of non-blank passages yields one chunk per queued passage, in order |
| Ingestion.EmbeddedFacts | src/main/java/com/cgc/service/llm/service/DocumentService.java:128-157 | against a healthy service, when isBlank() accepts every prepared passage, the loop succeeds; it makes EmbeddedCount chunks (every non-blank text when none is blank, otherwise only the full batches of 20), the k-th carrying the k-th non-blank text as prepared |
| Ingestion.EmbedLoop | src/main/java/com/cgc/service/llm/service/DocumentService.java:128-157 | from any point the chunks made so far are kept, at most one chunk is added per queued or remaining text, and each added chunk spans pages 1 to pageCount |
| Ingestion.Embedded | src/main/java/com/cgc/service/llm/service/DocumentService.java:128-157 | no texts give no chunks; never more chunks than chunk texts, each over pages 1 to pageCount |
| Ingestion.NoBlankAllEmbedded | src/main/java/com/cgc/service/llm/service/DocumentService.java:128-157 | with no blank chunk text, and isBlank() accepting every prepared passage, every chunk text is embedded, in order |
| Ingestion.KeptAll | src/main/java/com/cgc/service/llm/service/DocumentService.java:133-135 | when no text is blank, the skip keeps every text |
| Ingestion.BlankTextDropsBatch | src/main/java/com/cgc/service/llm/service/DocumentService.java:133-141 | with any embedding service, one blank chunk text after a single real one means the count flush never fires and nothing is embedded |
| Ingestion.ChunkedTextsKept | src/main/java/com/cgc/service/llm/service/DocumentService.java:128-135 | on the chunker's output the blank skip never fires: every chunk text is kept and counted |
| Ingestion.BatchEnvHealthy | src/main/java/com/cgc/service/llm/service/EmbeddingService.java:69-96 | generateEmbeddings over a client that always answers is a healthy service |
| Ingestion.ChunkedTextsEmbedded | src/main/java/com/cgc/service/llm/service/DocumentService.java:125-157 | on the chunker's output, with a client that always answers and prepared passages isBlank() accepts, every chunk text becomes a content chunk, in order |
| Ingestion.BlankPreparedFails | src/main/java/com/cgc/service/llm/service/DocumentService.java:128-146 | a lone chunk text that trim() keeps but whose prepared form isBlank() rejects fails with IndexOutOfBounds(0), whatever the client |
| Ingestion.EmSpaceChunkFails | src/main/java/com/cgc/service/llm/service/DocumentService.java:128-146 | the paragraph of eleven em spaces that splitIntoParagraphs yields, as a chunk not classified as code, formula or list, fails the upload with IndexOutOfBounds(0) |
| Ingestion.TableChunks | src/main/java/com/cgc/service/llm/service/DocumentService.java:119-124 | one table chunk per table that does not trim to nothing |
| Ingestion.TableChunksAt | src/main/java/com/cgc/service/llm/service/DocumentService.java:119-124 | each table chunk is a kept table, typed TABLE, spanning pages 1..pageCount |
| Ingestion.EmSpaceTableFails | src/main/java/com/cgc/service/llm/service/DocumentService.java:119-121 | a table that trim() does not empty but isBlank() rejects fails the whole upload |
| Ingestion.ConvertToTextChunkDto | src/main/java/com/cgc/service/llm/service/DocumentService.java:186-192 | text, embedding and type are copied; the page numbers are not |
| Ingestion.ConvertedAt | src/main/java/com/cgc/service/llm/service/DocumentService.java:159-167 | the k-th converted chunk is the conversion of the k-th chunk |
| Ingestion.ConvertChunks | src/main/java/com/cgc/service/llm/service/DocumentService.java:159-167 | the table chunks and then the content chunks are converted, in order |
| Ingestion.StoredChunks | src/main/java/com/cgc/service/llm/service/DocumentService.java:119-167 | the stored chunks exist exactly when both the table chunks and the text-chunk embedding succeed; they are the table chunks followed by the text chunks, each converted by convertToTextChunkDto |
| Ingestion.IngestedDocument | src/main/java/com/cgc/service/llm/service/DocumentService.java:93-169 | the returned metadata carries the id, file name, page count, stored path, chunk count and processing time |
| Ingestion.DocumentService.ReportExtraction | src/main/java/com/cgc/service/llm/service/DocumentService.java:102-117 | the page loop reports rising progress in [10, 60], ending at 60 when there are pages |
| Ingestion.DocumentService.CollectBatch | src/main/java/com/cgc/service/llm/service/DocumentService.java:143-149 | the loop appends the flush's chunks or stops at the index error |
| Ingestion.DocumentService.FlushAndReport | src/main/java/com/cgc/service/llm/service/DocumentService.java:141-156 | a flush appends its chunks and reports min(95, 75 + 20·made/total); a failed flush reports nothing |
| Ingestion.DocumentService.EmbedTextChunks | src/main/java/com/cgc/service/llm/service/DocumentService.java:128-157 | the loop's chunks are the embedded chunks of the texts, and the progress it reports rises within [75, 95] |
| Ingestion.DocumentService.GenerateChunks | src/main/java/com/cgc/service/llm/service/DocumentService.java:125-127 | progress 70, the semantic chunks with all their guarantees, then progress 75 |
| Ingestion.DocumentService.ChunkAndEmbed | src/main/java/com/cgc/service/llm/service/DocumentService.java:125-157 | the semantic chunks are embedded, with progress rising within [70, 95] |
| Ingestion.DocumentService.StoreIngested | src/main/java/com/cgc/service/llm/service/DocumentService.java:159-171 | the converted chunks and the metadata record are stored |
| Ingestion.DocumentService.Finish | src/main/java/com/cgc/service/llm/service/DocumentService.java:158-172 | progress 95, the chunks and metadata stored, then progress 100 "Completed" |
| Ingestion.DocumentService.ReadTables | src/main/java/com/cgc/service/llm/service/DocumentService.java:98-124 | progress 10, the page loop, 60, then the table chunks |
| Ingestion.DocumentService.EmbedAndStore | src/main/java/com/cgc/service/llm/service/DocumentService.java:125-172 | from progress 70: an embedding failure leaves storage unchanged; a success stores the table chunks then the content chunks and ends at 100 |
| Ingestion.DocumentService.Ingest | src/main/java/com/cgc/service/llm/service/DocumentService.java:98-175 | progress rises 10 … 60, 70, 75 … 95, 100 without falling; success stores the chunks (tables first) and the metadata; a failure in these steps leaves storage unchanged |
| Ingestion.DocumentService.Attempt | src/main/java/com/cgc/service/llm/service/DocumentService.java:78-180 | success ends at 100 "Completed" with a rising history within [0, 100]; any failure ends at -1 with "Failed: " and the exception's message |
| Ingestion.DocumentService.ProcessDocument | src/main/java/com/cgc/service/llm/service/DocumentService.java:73-184 | a new status for the upload starting at 0; the in-flight count restored; once the temporary copy succeeds and storeFile copies the file, that file stays in the files directory on every outcome; on success progress rises within [0, 100] to 100 "Completed" and the chunks and metadata are stored; on failure earlier progress within [0, 100], then -1 "Failed: " + message, with no chunk record, metadata record or cache entry changed |
| Ingestion.DocumentService.ReceiveUpload | src/main/java/com/cgc/service/llm/service/DocumentService.java:78-92 | the temporary copy, storeFile and the PDF reading, the first failure deciding; only a successful storeFile adds a file, nothing else in storage changes |
| Ingestion.UploadOf | src/main/java/com/cgc/service/llm/service/DocumentService.java:78-97 | the upload is read exactly when the copy, the store and the PDF reading all succeed; otherwise the first step's exception, storeFile's being "Failed to store file" |
| Ingestion.DocumentService.CachedChunks | src/main/java/com/cgc/service/llm/service/DocumentService.java:500-516 | a cached list, or one loaded from storage and then cached |
| Ingestion.DocumentService.RemoveDocument | src/main/java/com/cgc/service/llm/service/DocumentService.java:750-767 | false, with nothing changed (records, stored files and both storage caches), when storage has no metadata; otherwise the status and the cached chunks are dropped and storage deletes the chunk records, the metadata record, the stored upload named by the metadata and both cache entries |
| Ingestion.DocumentService.RemoveAllDocuments | src/main/java/com/cgc/service/llm/service/DocumentService.java:795-799 | every status and cached list is dropped; storage counts the metadata records, keeps only non-".meta" metadata records, keeps a chunk record (unchanged) exactly when its name starts with no listed id, and empties the files directory and caches |
| Ingestion.DocumentService.constructor | src/main/java/com/cgc/service/llm/service/DocumentService.java:62-70 | no statuses, no cached chunks, nothing in flight, over the given storage |

## Left out

- **I/O and serialization.** Reading and writing files, creating directories
  and Java serialization are left out. Records are map entries holding the
  stored values.
- **I/O and Storage exceptions.** The exceptions the Storage methods catch or
  rethrow on I/O failure are left out. Storage writes always succeed.
- **Caffeine eviction.** Size-bound and expire-after-access eviction are
  modelled as the `EvictChunks`/`EvictMetadata` methods, which may drop any
  entry at any time. The `Coherent` invariant captures what a cache may hold.
  `initializeCaches` is the constructor.
- **documentChunksCache eviction.** DocumentService's own Caffeine cache
  (DocumentService.java:65-66) holds at most 100 lists and expires them an
  hour after the last access. The model's `documentChunksCache` is a plain
  map that never loses an entry.
- **storeFile's failure and contents.** `StorageService.StoreFile` records the path in `storedFiles`.
  Whether the directory creation or the copy throws comes in as `copied`.
  A copy that fails part-way is recorded as no file at all. The file's bytes are not modelled.
- **`deleteStoragePath`.** It is modelled only as the removal of the path
  from `storedFiles`.
- **UTF-16 lengths.** Java's `length()` and `substring` count UTF-16 code
  units, while the model's `|s|` counts code points. The two agree on text
  inside the Basic Multilingual Plane and differ for every character outside
  it, which Java counts twice. The places where the difference shows:
  - the chunk-size test of generateSemanticChunks (DocumentService.java:254
    and 286). Two paragraphs of 30 U+1F600 characters each fit a chunkSize of
    100 in the model (60 code points) but not in Java (120 code units), so
    Java flushes between them;
  - the heading rule `length() < 50` of detectContentType
    (ContentUtils.java:107-108), and its `< 100` and `< 150` bounds;
  - the `length() > 10` filter of splitIntoParagraphs (PdfUtils.java:33);
  - the size test and the overlap of createSemanticallyCoherentChunks
    (ContentUtils.java:442-459). Java's overlap `substring` can start inside a
    surrogate pair, which the model cannot express.
- ChunkRules.WithinLimitAt: states the chunk-size limit in code points, not
  UTF-16 code units, for the reason above.
- ContentUtils.Carry: carries the last `overlap` code points, not UTF-16 code
  units, for the reason above.
- **PDF and table extraction.** PDFBox and Tabula, `extractTables`,
  `formatTableAsString`, `extractPageTexts` and `PdfUtils.extractText` are
  left out. The page count, the tables and the page texts come in as a `Pdf`,
  or as the exception reading the upload threw.
- **Temporary-file copy and `sanitizeFilename`.** These steps of
  processDocument are left out. A failure in them comes in as the
  `tempCopy` exception. The temporary file itself is never deleted by the
  source and is not modelled.
- **Regular-expression searches, match counts and parsers.** These are the
  `Matchers` oracles, including:
  - the counting loops of `isList`, `isPythonCode` and `isJavaScriptCode`,
    modelled as counts;
  - the Java, XML and JSON parse attempts;
  - `extractHeadings`, which is the `headings` parameter.

  `prettifyXml` and `prettifyJson` are not used by the core and are not
  modelled.
- **Floating point.**
  - The cosine similarity's arithmetic is a parameter. Only its guard cases
    are modelled.
  - Scores are exact reals.
  - The percentage arithmetic of processDocument is exact integer division
    (`Quot`) instead of a double product cast to int. The two agree except
    where a double rounds across an integer.
  - The confidence is the exact mean of the scores.
- **Concurrency.** The following run sequentially, with the first failure as
  the result:
  - the virtual-thread fan-out of fetchAllDocumentChunks and its 30-second
    timeout;
  - the `parallelStream` of table embedding;
  - the per-text futures of processNonBatchEmbeddings.

  `AtomicInteger` and `ConcurrentHashMap` are plain fields. The in-flight
  counter is an unbounded integer.
- **The clock and the UUID.** They are the `now`, `elapsed` and `fileId`
  parameters. The model calls the clock one `now` value within a call.
- **The language model call.** `buildImprovedPrompt` and
  `llmService.generateResponse` are left out. `QueryDocuments` stops at what
  the prompt is built from. `processingTimeMs` is not modelled.
- **Entry points that only wrap the core.** `getDocument`,
  `getDocumentMetadata`, `getAllDocumentIds`, `processDocumentsAsync`,
  `processDocuments`, the streaming queries, the controllers and the
  network client are left out.
- **Exception messages from the JDK.** `MessageOf` gives a fixed text per
  exception kind. It does not reproduce the JDK's message.
- **`toLowerCase`.** `ToLower` lowers only the ASCII letters A to Z. Java's
  `toLowerCase` lowers every Unicode upper-case letter, and some map into ASCII.
  For example, U+212A (Kelvin sign) becomes 'k' and U+0130 becomes "i" + U+0307.
  The model therefore differs from the source in these places:
  - normalizeContent (DocumentService.java:553-555): the source keeps
    the 'k' or 'i' such a letter becomes, where the model deletes the
    original character. The Jaccard test then sees different words.
  - extractKeywords and the keyword `contains` test (DocumentService.java:476-480):
    a letter lowered into ASCII becomes a word character for the `\W+`
    split. Non-ASCII upper-case letters are compared lowered in the source and
    unchanged in the model.
  - enhanceQuestion (DocumentService.java:465-474): the source sends the
    fully lowered question to the embedding client, e.g. "été" where the
    model sends "ÉTÉ".
- **The embedding cache.** `generateEmbedding` is `@Cacheable` with the
  key `text.hashCode()` (EmbeddingService.java:54; caching is switched
  on by `@EnableCaching`). The table passages (DocumentService.java:121)
  and the query embeddings (DocumentService.java:331, 375, 428) go
  through that cache. A repeated text, or a different text with the same
  hash code (such as "Aa" and "BB"), gets the first vector cached without
  a client call. The per-text calls of processNonBatchEmbeddings are
  self-invocations and bypass it. The model sends every call to the client.
- Embedding.GenerateEmbedding: states the client's answer for every call, so
  a cached vector for an equal or hash-colliding text is not modelled.
- Ingestion.TableChunksAt: equates each table's embedding with a fresh
  client call, which the cache above makes false for repeated or
  hash-colliding tables.
- Storage.StorageService.constructor: requires a positive chunk batch size.
  With batch size 0 the storing loop never ends, and with a negative one
  `subList(i, end)` throws on any non-empty chunk list
  (StorageService.java:84-86).
