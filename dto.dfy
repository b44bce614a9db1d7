/**
 * The records the document service passes around (its dto and enums
 * packages), the exceptions it raises, and Java's 32-bit int arithmetic.
 */
module Dto {

  datatype Option<+T> = None | Some(value: T)

  /** The exceptions of the core, as values. */
  datatype Error =
    | ApplicationException(message: string)
    | IllegalArgument(message: string)
    | IndexOutOfBounds(index: int)
    | CompletionException(cause: Error)  // CompletableFuture.join rethrowing a task's failure

  datatype Result<+T> = Ok(value: T) | Err(error: Error) {
    predicate IsFailure() { Err? }

    function PropagateFailure<U>(): Result<U>
      requires Err?
    {
      Err(error)
    }

    function Extract(): T
      requires Ok?
    {
      value
    }
  }

  /** r with a put in front of its list; a failure stays the failure. */
  function Prefixed<T>(a: seq<T>, r: Result<seq<T>>): Result<seq<T>>
  {
    if r.Ok? then Ok(a + r.value) else r
  }

  lemma PrefixedEmpty<T>(r: Result<seq<T>>)
    ensures Prefixed([], r) == r
  {
    if r.Ok? {
      assert [] + r.value == r.value;
    }
  }

  lemma PrefixedTwice<T>(a: seq<T>, b: seq<T>, r: Result<seq<T>>)
    ensures Prefixed(a, Prefixed(b, r)) == Prefixed(a + b, r)
  {
    if r.Ok? {
      assert a + (b + r.value) == a + b + r.value;
    }
  }

  lemma SubsetCard<T>(a: set<T>, b: set<T>)
    requires a <= b
    ensures |a| <= |b|
  {
    assert b == a + (b - a);
  }

  /** ContentType: the categories a passage can be classified into. */
  datatype ContentType =
    | Text | Table | CodeJava | CodePython | CodeJavaScript | CodeCSharp | CodeSql
    | CodeXml | CodeJson | CodeOther | MathFormula | List | DiagramDescription
    | Heading | Image | Header | Footer

  /** Enum.name() of a content type. */
  function EnumName(t: ContentType): string
  {
    match t
    case Text => "TEXT"
    case Table => "TABLE"
    case CodeJava => "CODE_JAVA"
    case CodePython => "CODE_PYTHON"
    case CodeJavaScript => "CODE_JAVASCRIPT"
    case CodeCSharp => "CODE_CSHARP"
    case CodeSql => "CODE_SQL"
    case CodeXml => "CODE_XML"
    case CodeJson => "CODE_JSON"
    case CodeOther => "CODE_OTHER"
    case MathFormula => "MATH_FORMULA"
    case List => "LIST"
    case DiagramDescription => "DIAGRAM_DESCRIPTION"
    case Heading => "HEADING"
    case Image => "IMAGE"
    case Header => "HEADER"
    case Footer => "FOOTER"
  }

  /** An embedding vector (float[]); its entries are only ever passed on. */
  type Vector = seq<real>

  /** TextChunkDto: a stored passage. */
  datatype TextChunk = TextChunk(
    text: string,
    embedding: Option<Vector>,
    startPage: int,
    endPage: int,
    contentType: Option<ContentType>)

  /** ContentChunkDto: a passage while a document is being ingested. */
  datatype ContentChunk = ContentChunk(
    text: string,
    embedding: Option<Vector>,
    startPage: int,
    endPage: int,
    contentType: Option<ContentType>)

  /** RankedChunkDto: a passage with its relevance score. */
  datatype RankedChunk = RankedChunk(chunk: TextChunk, score: real)

  /** DocumentDto: the metadata record of an ingested document. */
  datatype DocumentDto = DocumentDto(
    id: string,
    filename: string,
    pageCount: int,
    chunksCount: int,
    processedTime: int,
    contentType: Option<string>,
    processingStatus: int,
    processingMessage: Option<string>,
    storagePath: Option<string>,
    fileSize: int)

  /** A DocumentDto right after `new DocumentDto()` and the setters for id, filename, pages and path. */
  function NewDocument(id: string, filename: string, pageCount: int, storagePath: string): (d: DocumentDto)
    ensures d.id == id && d.filename == filename && d.pageCount == pageCount
    ensures d.storagePath == Some(storagePath)
    ensures d.chunksCount == 0 && d.processingStatus == 0 && d.processingMessage == None
  {
    DocumentDto(id, filename, pageCount, 0, 0, None, 0, None, Some(storagePath), 0)
  }

  const TwoTo31: int := 0x8000_0000
  const TwoTo32: int := 0x1_0000_0000

  predicate IsInt32(x: int) { -TwoTo31 <= x < TwoTo31 }

  /** The value of a Java int expression whose exact result is x (two's-complement wrap-around). */
  function Wrap32(x: int): (r: int)
    ensures IsInt32(r)
    ensures IsInt32(x) ==> r == x
    ensures (r - x) % TwoTo32 == 0
  {
    (x + TwoTo31) % TwoTo32 - TwoTo31
  }

  /** Positions strictly increase, pair by pair: an order is kept. */
  predicate Increasing(p: seq<nat>) {
    forall a, b :: 0 <= a < b < |p| ==> p[a] < p[b]
  }
}
